/** exportDataToCSV (main.cpp:72-85): the header line, then one "date,value" line per entry of the
    observation set in its (ascending) iteration order. Whether the output file opens is a
    parameter, and so is the rendering of a value (the stream's default float formatting). */
module Exporter {
  import opened Wrappers
  import opened StringOrder
  import opened Observations

  const Header: string := "Date,SoilMoisture"

  /** How `outFile << value` renders a value. */
  type Formatter = real -> string

  function Row(o: Observation, format: Formatter): string {
    o.date + "," + format(o.value)
  }

  function DataRows(s: seq<Observation>, format: Formatter): seq<string>
    decreases |s|
  {
    if s == [] then [] else [Row(s[0], format)] + DataRows(s[1..], format)
  }

  /** The lines of the CSV file, without their line terminators. */
  function CsvRows(data: ObservationSet, format: Formatter): seq<string> {
    [Header] + DataRows(data, format)
  }

  /** None: the output file did not open and nothing was written. */
  method ExportDataToCsv(data: ObservationSet, canOpen: bool, format: Formatter)
    returns (file: Option<seq<string>>)
    ensures !canOpen ==> file == None
    ensures canOpen ==> file == Some(CsvRows(data, format))
  {
    if !canOpen {
      return None;
    }
    var rows := [Header];
    for i := 0 to |data|
      invariant rows + DataRows(data[i..], format) == CsvRows(data, format)
    {
      assert data[i..][1..] == data[i + 1..];
      rows := rows + [Row(data[i], format)];
    }
    assert DataRows(data[|data|..], format) == [];
    assert rows + [] == rows;
    file := Some(rows);
  }

  lemma {:induction false} DataRowsAt(s: seq<Observation>, format: Formatter, i: nat)
    requires i < |s|
    ensures |DataRows(s, format)| == |s|
    ensures DataRows(s, format)[i] == Row(s[i], format)
    decreases i
  {
    if i == 0 {
      DataRowsLength(s, format);
    } else {
      DataRowsAt(s[1..], format, i - 1);
    }
  }

  lemma {:induction false} DataRowsLength(s: seq<Observation>, format: Formatter)
    ensures |DataRows(s, format)| == |s|
    decreases |s|
  {
    if s != [] {
      DataRowsLength(s[1..], format);
    }
  }

  /** The header, then exactly one row per key of the mapping, keys strictly ascending, each
      with the value the mapping gives it. */
  lemma CsvLayout(data: ObservationSet, format: Formatter)
    ensures |CsvRows(data, format)| == |data| + 1 == |ToMap(data)| + 1
    ensures CsvRows(data, format)[0] == Header
    ensures ToMap(data).Keys == Dates(data)
    ensures forall i, j :: 0 <= i < j < |data| ==> Less(data[i].date, data[j].date)
    ensures forall i :: 0 <= i < |data| ==>
              data[i].date in ToMap(data) &&
              CsvRows(data, format)[i + 1] == data[i].date + "," + format(ToMap(data)[data[i].date])
  {
    ToMapSize(data);
    DataRowsLength(data, format);
    forall i | 0 <= i < |data|
      ensures data[i].date in ToMap(data)
      ensures CsvRows(data, format)[i + 1] == data[i].date + "," + format(ToMap(data)[data[i].date])
    {
      ToMapAt(data, i);
      DataRowsAt(data, format, i);
    }
  }

  /** A row split at its first comma. */
  function SplitAtComma(row: string): Option<(string, string)>
    decreases |row|
  {
    if row == [] then None
    else if row[0] == ',' then Some(([], row[1..]))
    else match SplitAtComma(row[1..])
      case None => None
      case Some(parts) => Some(([row[0]] + parts.0, parts.1))
  }

  /** A reader for the file: rows after the header, each "key,value"; None when one is not. */
  function ReadRows(rows: seq<string>, parse: string -> Option<real>): Option<map<string, real>>
    decreases |rows|
  {
    if rows == [] then Some(map[])
    else match SplitAtComma(rows[0])
      case None => None
      case Some(parts) =>
        match (parse(parts.1), ReadRows(rows[1..], parse))
        case (Some(v), Some(m)) => Some(m[parts.0 := v])
        case _ => None
  }

  function ReadCsv(file: seq<string>, parse: string -> Option<real>): Option<map<string, real>> {
    if file == [] || file[0] != Header then None else ReadRows(file[1..], parse)
  }

  lemma {:induction false} SplitRow(key: string, text: string)
    requires ',' !in key
    ensures SplitAtComma(key + "," + text) == Some((key, text))
    decreases |key|
  {
    if key == [] {
      assert key + "," + text == [','] + text;
    } else {
      SplitRow(key[1..], text);
      assert (key + "," + text)[1..] == key[1..] + "," + text;
      assert [key[0]] + key[1..] == key;
    }
  }

  /** Reading the file back gives the observation set, provided no date holds a comma and the
      value rendering reads back exactly. */
  lemma {:induction false} CsvRoundTrip(data: ObservationSet, format: Formatter, parse: string -> Option<real>)
    requires forall i :: 0 <= i < |data| ==> ',' !in data[i].date
    requires forall i :: 0 <= i < |data| ==> parse(format(data[i].value)) == Some(data[i].value)
    ensures ReadCsv(CsvRows(data, format), parse) == Some(ToMap(data))
  {
    RowsRoundTrip(data, format, parse);
  }

  lemma {:induction false} RowsRoundTrip(data: ObservationSet, format: Formatter, parse: string -> Option<real>)
    requires forall i :: 0 <= i < |data| ==> ',' !in data[i].date
    requires forall i :: 0 <= i < |data| ==> parse(format(data[i].value)) == Some(data[i].value)
    ensures ReadRows(DataRows(data, format), parse) == Some(ToMap(data))
    decreases |data|
  {
    if data != [] {
      var rows := DataRows(data, format);
      SplitRow(data[0].date, format(data[0].value));
      assert rows[1..] == DataRows(data[1..], format);
      RowsRoundTrip(data[1..], format, parse);
    }
  }
}
