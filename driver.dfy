/** main (main.cpp:87-122): load, stop with status 1 on an empty observation set, otherwise
    average, classify, suggest, export and end with status 0 whether or not the export could
    open its file. Path resolution and console output are not modelled; the values the program
    prints (average, condition, suggestion) are returned in a Report. */
module Driver {
  import opened Wrappers
  import opened Observations
  import opened LineParser
  import opened Loader
  import opened Aggregator
  import opened Classifier
  import opened Advisor
  import opened Exporter

  datatype Report = Report(average: real, condition: string, suggestion: string)

  method RunProgram(input: Option<seq<string>>, outputOpens: bool, format: Formatter)
    returns (status: int, data: ObservationSet, report: Option<Report>, csv: Option<seq<string>>)
    ensures ToMap(data) == Loaded(input)
    ensures status == (if Loaded(input) == map[] then 1 else 0)
    ensures status == 1 ==> report == None && csv == None
    ensures status == 0 ==> report == Some(Report(Mean(Loaded(input)),
                                                  AnalyzeMoistureData(Mean(Loaded(input))),
                                                  SuggestAgriculturalActions(AnalyzeMoistureData(Mean(Loaded(input))))))
    ensures status == 0 ==> csv == (if outputOpens then Some(CsvRows(data, format)) else None)
  {
    data := LoadEarthObservationData(input);
    ToMapSize(data);
    if |data| == 0 {
      return 1, data, None, None;
    }
    var avgMoisture := ComputeAverageMoisture(data);
    var condition := AnalyzeMoistureData(avgMoisture);
    var suggestion := SuggestAgriculturalActions(condition);
    csv := ExportDataToCsv(data, outputOpens, format);
    return 0, data, Some(Report(avgMoisture, condition, suggestion)), csv;
  }
}
