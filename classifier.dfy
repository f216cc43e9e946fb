/** analyzeMoistureData (main.cpp:50-58): the condition label for an average soil moisture, by
    fixed thresholds of 20 and 80 percent; both thresholds themselves count as normal. */
module Classifier {

  const Drought: string := "Drought Condition Detected!"
  const Flood: string := "Flood Condition Detected!"
  const Normal: string := "Normal Soil Moisture Levels."

  function AnalyzeMoistureData(avgMoisture: real): (condition: string)
    ensures condition in {Drought, Flood, Normal}
    ensures condition == Drought <==> avgMoisture < 20.0
    ensures condition == Flood <==> avgMoisture > 80.0
    ensures condition == Normal <==> 20.0 <= avgMoisture <= 80.0
  {
    if avgMoisture < 20.0 then Drought
    else if avgMoisture > 80.0 then Flood
    else Normal
  }
}
