/** suggestAgriculturalActions (main.cpp:61-69): the suggestion line printed for a condition
    label. The label is compared as a string; every string other than the drought and flood
    labels, not only the normal label, gets the monitoring suggestion. */
module Advisor {
  import opened Classifier

  const Irrigate: string := "Suggested Action: Implement irrigation strategies to conserve water.\n"
  const Drain: string := "Suggested Action: Implement drainage solutions to avoid crop damage.\n"
  const Monitor: string := "Suggested Action: Maintain regular crop monitoring.\n"

  function SuggestAgriculturalActions(condition: string): (line: string)
    ensures line in {Irrigate, Drain, Monitor}
    ensures line == Irrigate <==> condition == Drought
    ensures line == Drain <==> condition == Flood
    ensures line == Monitor <==> condition != Drought && condition != Flood
  {
    if condition == Drought then Irrigate
    else if condition == Flood then Drain
    else Monitor
  }

  /** From average to suggestion: irrigate below 20, drain above 80, monitor in between. */
  lemma SuggestionForAverage(avgMoisture: real)
    ensures SuggestAgriculturalActions(AnalyzeMoistureData(avgMoisture)) ==
      if avgMoisture < 20.0 then Irrigate
      else if avgMoisture > 80.0 then Drain
      else Monitor
  {
  }
}
