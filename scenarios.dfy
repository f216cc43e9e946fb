/** Worked inputs (three readings around a normal mean, two readings of a drought), followed from
    the readings of the input lines to the reported average, condition, suggestion and CSV rows.
    NormalScenario and DroughtScenario hold for any reader and any distinct dates;
    ConcreteNormal and ConcreteDrought apply them to input files read with ParseLine. */
module Scenarios {
  import opened Wrappers
  import opened StringOrder
  import opened Observations
  import opened LineParser
  import opened ExampleLines
  import opened Loader
  import opened Aggregator
  import opened Classifier
  import opened Advisor
  import opened Exporter

  /** Readings 15.0, 85.0 and 50.0 average to 50, which is normal and asks for monitoring. */
  lemma NormalScenario(d1: string, d2: string, d3: string, lines: seq<string>, read: LineReader)
    requires d1 != d2 && d1 != d3 && d2 != d3
    requires |lines| == 3
    requires read(lines[0]) == Some(Observation(d1, 15.0))
    requires read(lines[1]) == Some(Observation(d2, 85.0))
    requires read(lines[2]) == Some(Observation(d3, 50.0))
    ensures var m := LoadFrom(map[], lines, read);
      && m == map[d1 := 15.0, d2 := 85.0, d3 := 50.0]
      && Mean(m) == 50.0
      && AnalyzeMoistureData(Mean(m)) == Normal
      && SuggestAgriculturalActions(AnalyzeMoistureData(Mean(m))) == Monitor
  {
    var s := [Observation(d1, 15.0), Observation(d2, 85.0), Observation(d3, 50.0)];
    LoadsAll(lines, s, read);
    ThreeReadings(s);
  }

  /** Readings 5.0 and 10.0 average to 7.5, a drought, which asks for irrigation. */
  lemma DroughtScenario(d1: string, d2: string, lines: seq<string>, read: LineReader)
    requires d1 != d2
    requires |lines| == 2
    requires read(lines[0]) == Some(Observation(d1, 5.0))
    requires read(lines[1]) == Some(Observation(d2, 10.0))
    ensures var m := LoadFrom(map[], lines, read);
      && m == map[d1 := 5.0, d2 := 10.0]
      && Mean(m) == 7.5
      && AnalyzeMoistureData(Mean(m)) == Drought
      && SuggestAgriculturalActions(AnalyzeMoistureData(Mean(m))) == Irrigate
  {
    var s := [Observation(d1, 5.0), Observation(d2, 10.0)];
    LoadsAll(lines, s, read);
    TwoReadings(s);
  }

  /** The file "2020-01-01 15.0", "2020-01-02 85.0", "2020-01-03 50.0" loads three entries with
      mean 50, which is normal and asks for monitoring. */
  lemma ConcreteNormal()
    ensures var m := Loaded(Some(["2020-01-01 15.0", "2020-01-02 85.0", "2020-01-03 50.0"]));
      && m == map["2020-01-01" := 15.0, "2020-01-02" := 85.0, "2020-01-03" := 50.0]
      && Mean(m) == 50.0
      && AnalyzeMoistureData(Mean(m)) == Normal
      && SuggestAgriculturalActions(AnalyzeMoistureData(Mean(m))) == Monitor
  {
    var lines := ["2020-01-01 15.0", "2020-01-02 85.0", "2020-01-03 50.0"];
    assert lines[0] == "2020-01-01" + " " + ("15" + "." + "0");
    assert lines[1] == "2020-01-02" + " " + ("85" + "." + "0");
    assert lines[2] == "2020-01-03" + " " + ("50" + "." + "0");
    assert ParseLine(lines[0]) == Some(Observation("2020-01-01", 15.0)) by {
      NormalLine1();
    }
    assert ParseLine(lines[1]) == Some(Observation("2020-01-02", 85.0)) by {
      NormalLine2();
    }
    assert ParseLine(lines[2]) == Some(Observation("2020-01-03", 50.0)) by {
      NormalLine3();
    }
    NormalScenario("2020-01-01", "2020-01-02", "2020-01-03", lines, ParseLine);
  }

  /** The file "2020-01-01 5.0", "2020-01-02 10.0" loads two entries with mean 7.5, a drought,
      which asks for irrigation. */
  lemma ConcreteDrought()
    ensures var m := Loaded(Some(["2020-01-01 5.0", "2020-01-02 10.0"]));
      && m == map["2020-01-01" := 5.0, "2020-01-02" := 10.0]
      && Mean(m) == 7.5
      && AnalyzeMoistureData(Mean(m)) == Drought
      && SuggestAgriculturalActions(AnalyzeMoistureData(Mean(m))) == Irrigate
  {
    var lines := ["2020-01-01 5.0", "2020-01-02 10.0"];
    assert lines[0] == "2020-01-01" + " " + ("5" + "." + "0");
    assert lines[1] == "2020-01-02" + " " + ("10" + "." + "0");
    assert ParseLine(lines[0]) == Some(Observation("2020-01-01", 5.0)) by {
      DroughtLine1();
    }
    assert ParseLine(lines[1]) == Some(Observation("2020-01-02", 10.0)) by {
      DroughtLine2();
    }
    DroughtScenario("2020-01-01", "2020-01-02", lines, ParseLine);
  }

  /** With no observations the mean is 0, which the thresholds class as a drought. */
  lemma EmptyMeanIsDrought()
    ensures Mean(map[]) == 0.0
    ensures AnalyzeMoistureData(Mean(map[])) == Drought
  {
  }

  /** Lines that all read put all their observations into the map, in order. */
  lemma LoadsAll(lines: seq<string>, s: seq<Observation>, read: LineReader)
    requires |lines| == |s|
    requires forall i :: 0 <= i < |lines| ==> read(lines[i]) == Some(s[i])
    ensures LoadFrom(map[], lines, read) == PutAll(map[], s)
  {
    AllAccepted(lines, s, read);
    LoadIsAccepted(map[], lines, read);
  }

  lemma {:induction false} AllAccepted(lines: seq<string>, s: seq<Observation>, read: LineReader)
    requires |lines| == |s|
    requires forall i :: 0 <= i < |lines| ==> read(lines[i]) == Some(s[i])
    ensures Accepted(lines, read) == s
    decreases |lines|
  {
    if lines != [] {
      AllAccepted(lines[1..], s[1..], read);
    }
  }

  /** Three readings with distinct dates: all three are kept and their mean is the plain
      average. */
  lemma ThreeReadings(s: seq<Observation>)
    requires |s| == 3 && s[0].date != s[1].date && s[0].date != s[2].date && s[1].date != s[2].date
    ensures PutAll(map[], s) == map[s[0].date := s[0].value, s[1].date := s[1].value, s[2].date := s[2].value]
    ensures Mean(PutAll(map[], s)) == (s[0].value + s[1].value + s[2].value) / 3.0
  {
    var m := map[s[0].date := s[0].value, s[1].date := s[1].value, s[2].date := s[2].value];
    assert s[1..][1..] == s[2..] && s[2..][1..] == [];
    assert PutAll(map[], s) == m by {
      assert PutAll(map[], s) == PutAll(map[s[0].date := s[0].value], s[1..]);
      assert PutAll(map[s[0].date := s[0].value], s[1..]) == PutAll(map[s[0].date := s[0].value, s[1].date := s[1].value], s[2..]);
      assert PutAll(map[s[0].date := s[0].value, s[1].date := s[1].value], s[2..]) == PutAll(m, []);
    }
    MeanOfThree(s[0].date, s[0].value, s[1].date, s[1].value, s[2].date, s[2].value);
  }

  /** Two readings with distinct dates: both are kept and their mean is the plain average. */
  lemma TwoReadings(s: seq<Observation>)
    requires |s| == 2 && s[0].date != s[1].date
    ensures PutAll(map[], s) == map[s[0].date := s[0].value, s[1].date := s[1].value]
    ensures Mean(PutAll(map[], s)) == (s[0].value + s[1].value) / 2.0
  {
    var m := map[s[0].date := s[0].value, s[1].date := s[1].value];
    assert s[1..][1..] == [];
    assert PutAll(map[], s) == m by {
      assert PutAll(map[], s) == PutAll(map[s[0].date := s[0].value], s[1..]);
      assert PutAll(map[s[0].date := s[0].value], s[1..]) == PutAll(m, []);
    }
    MeanOfTwo(s[0].date, s[0].value, s[1].date, s[1].value);
  }

  /** The three-reading set exports as the header and one row per date, in date order. */
  lemma NormalScenarioCsv(d1: string, d2: string, d3: string, data: ObservationSet, format: Formatter)
    requires Less(d1, d2) && Less(d2, d3)
    requires ToMap(data) == map[d1 := 15.0, d2 := 85.0, d3 := 50.0]
    ensures CsvRows(data, format) ==
      [Header, d1 + "," + format(15.0), d2 + "," + format(85.0), d3 + "," + format(50.0)]
  {
    LessTransitive(d1, d2, d3);
    LessIrreflexive(d1);
    LessIrreflexive(d2);
    var s := [Observation(d1, 15.0), Observation(d2, 85.0), Observation(d3, 50.0)];
    assert Ordered(s);
    assert s[1..][1..] == s[2..] && s[2..][1..] == [];
    assert ToMap(s) == ToMap(data) by {
      assert ToMap(s[1..]) == map[d3 := 50.0][d2 := 85.0];
      UpdatesCommute(map[], d3, 50.0, d2, 85.0);
      UpdatesCommute(map[d2 := 85.0], d3, 50.0, d1, 15.0);
      UpdatesCommute(map[], d2, 85.0, d1, 15.0);
    }
    ToMapInjective(s, data);
    assert DataRows(s[2..], format) == [d3 + "," + format(50.0)];
    assert DataRows(s[1..], format) == [d2 + "," + format(85.0)] + DataRows(s[2..], format);
    assert DataRows(s, format) == [d1 + "," + format(15.0)] + DataRows(s[1..], format);
  }

  /** The mean of two distinct dates' readings. */
  lemma MeanOfTwo(a: string, x: real, b: string, y: real)
    requires a != b
    ensures Mean(map[a := x, b := y]) == (x + y) / 2.0
  {
    var m := map[a := x, b := y];
    assert |m| == 2 by {
      assert m.Keys == {a, b};
    }
    SumOfTwo(a, x, b, y);
  }

  /** The mean of three distinct dates' readings. */
  lemma MeanOfThree(a: string, x: real, b: string, y: real, c: string, z: real)
    requires a != b && a != c && b != c
    ensures Mean(map[a := x, b := y, c := z]) == (x + y + z) / 3.0
  {
    var m := map[a := x, b := y, c := z];
    assert |m| == 3 by {
      assert m.Keys == {a, b, c};
    }
    SumOfThree(a, x, b, y, c, z);
  }

  lemma SumOfTwo(a: string, x: real, b: string, y: real)
    requires a != b
    ensures MapSum(map[a := x, b := y]) == x + y
  {
    MapSumRemove(map[a := x, b := y], a);
    assert map[a := x, b := y] - {a} == map[b := y];
    MapSumRemove(map[b := y], b);
    assert map[b := y] - {b} == map[];
  }

  lemma SumOfThree(a: string, x: real, b: string, y: real, c: string, z: real)
    requires a != b && a != c && b != c
    ensures MapSum(map[a := x, b := y, c := z]) == x + y + z
  {
    MapSumRemove(map[a := x, b := y, c := z], a);
    assert map[a := x, b := y, c := z] - {a} == map[b := y, c := z];
    SumOfTwo(b, y, c, z);
  }
}
