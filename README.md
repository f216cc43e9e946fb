# Soil-moisture monitor, modelled in Dafny

This project models the C++ program `main.cpp`. The program reads NASA soil-moisture observations: one `date value` pair per line of a text file, gathered into a `std::map<std::string, float>`. It then:

- averages the values;
- classes the average as a drought, a flood or normal, using thresholds at 20 and 80;
- prints a suggested action for that class;
- writes the map as a CSV file (`Date,SoilMoisture`, then one `date,value` row per entry in key order);
- exits with status 1 when nothing was loaded, and 0 otherwise.

Modules, one per part of the program:

- `StringOrder`: the `std::string` key order.
- `Observations`: the `std::map` as the strictly ascending sequence of its entries, with `ToMap` giving the mapping it stands for, and `Put` for `data[date] = value`.
- `LineParser`: `iss >> date >> value` on one line.
- `Loader`: `loadEarthObservationData`.
- `Aggregator`: `computeAverageMoisture`.
- `Classifier`: `analyzeMoistureData`.
- `Advisor`: `suggestAgriculturalActions`.
- `Exporter`: `exportDataToCSV` and a reader for its output.
- `Driver`: `main`.
- `ExampleLines`: how each line of two example input files reads.
- `Scenarios`: worked inputs (a normal mean, a drought) followed from the line readings to the report and the CSV rows.
- `Wrappers`: `Option`.

The loop-based functions are methods with loops, each proved against a specification function:

- `LoadEarthObservationData` is proved against `LoadFrom`/`Loaded`.
- `ComputeAverageMoisture` is proved against `Mean`.
- `ExportDataToCsv` is proved against `CsvRows`.

The properties the program promises are then proved about those functions.

The file system is a parameter:

- The input file is `None` when it cannot be opened; otherwise it is `Some(lines)`, the lines `getline` returns.
- Whether the output file opens is a `bool`.
- The CSV is returned as its lines.

An empty observation set averages 0 (main.cpp:46), and the code classes an average of 0 as a drought, because 0 < 20 (main.cpp:51), not as normal as one might expect. The model follows the code, and `Scenarios.EmptyMeanIsDrought` proves it. `main` never classifies an empty set, because it exits with status 1 first.

## Model

| member | source | states |
|---|---|---|
| StringOrder.LessIrreflexive | main.cpp:12 | no key is ordered before itself |
| StringOrder.LessAsymmetric | main.cpp:12 | two keys are never each before the other |
| StringOrder.LessTransitive | main.cpp:12 | the key order is transitive |
| StringOrder.LessTotal | main.cpp:12 | any two distinct keys are ordered one way or the other, so the map's key order is a strict total order |
| Observations.ToMap | main.cpp:12 | the keys of the mapping are exactly the dates of the entries |
| Observations.ToMapAt | main.cpp:12 | every entry's date is a key mapped to that entry's value |
| Observations.ToMapSize | main.cpp:12 | the mapping has exactly one key per entry (the map's size) |
| Observations.ToMapInjective | main.cpp:12 | two ascending entry sequences with the same mapping are equal, so the representation of a map is unique |
| Observations.Put | main.cpp:31 | `data[date] = value` yields a map (still strictly ascending) whose mapping is the old mapping with `date` set to `value`, inserting or overwriting |
| LineParser.ReadUnsigned | main.cpp:27-28 | an unsigned decimal reads exactly when the text starts with a digit, or with a point followed by a digit; its value is never negative |
| LineParser.SignedNumber | main.cpp:27-28 | a leading minus reads as the negation of the unsigned number after it (and nothing when that does not read), a leading plus is dropped, and a text starting with neither sign reads unsigned |
| LineParser.ReadsWhole | main.cpp:27-28 | digits followed by anything but a digit or a point ("12abc") read as the whole number |
| LineParser.ReadsDecimal | main.cpp:27-28 | digits, a point and digits, followed by anything but a digit, read as whole part plus fraction |
| LineParser.DecimalNumber | main.cpp:27-28 | a number token `whole.fraction` on its own reads as its value |
| LineParser.ParseLine | main.cpp:25-28 | a line that reads yields a date token that is nonempty and holds no blank |
| LineParser.SpanAfterRun | main.cpp:27-28 | blanks in front of a text lengthen the blank run `>>` skips by exactly their number |
| LineParser.LeadingBlanks | main.cpp:25-28 | `iss >> date` skips leading blanks, so blanks in front of a line leave its reading unchanged |
| LineParser.ParseLineOf | main.cpp:25-28 | date token, blanks, then a number token: the line reads as that date with the number's value, and does not read when the number does not |
| LineParser.ReadsAs | main.cpp:25-28 | a date token, blanks and a number token that reads as v make a line that reads as that date with value v |
| LineParser.ParsesDecimalLine | main.cpp:25-28 | `date value` with a plain decimal value reads as that observation |
| LineParser.BlankLineFails | main.cpp:25-29 | a blank line does not read, so it stops the load |
| LineParser.MissingValueFails | main.cpp:25-29 | a date token without a value does not read, so it stops the load |
| Loader.Accepted | main.cpp:24-30 | the observations of the lines before the first line that does not read; the line right after them does not read |
| Loader.LoadEarthObservationData | main.cpp:11-35 | the returned map stands for `Loaded(input)`; an input that cannot be opened gives the empty map |
| Loader.StopsAtFirstBadLine | main.cpp:24-32 | good lines, a bad line, then anything: the load equals the load of the good lines alone, so nothing after the bad line contributes |
| Loader.LoadIsAccepted | main.cpp:24-32 | the load puts the accepted observations into the map in line order |
| Loader.LoadedKeys | main.cpp:24-31 | the loaded keys are exactly the dates of the lines before the first bad line |
| Loader.LoadedValueIsLast | main.cpp:31 | a date carries the value of the last accepted line with that date |
| Loader.LoadedSize | main.cpp:24-32 | at most one entry per accepted line, and exactly one when their dates differ |
| Loader.LoadIgnoresLineOrder | main.cpp:24-32 | when every line reads and no date repeats, any reordering of the lines loads the same map |
| Loader.ShuffledAllRead | main.cpp:24-32 | when every line reads, every line of a reordering of them reads too |
| Loader.ShuffledDatesDistinct | main.cpp:24-32 | when every line reads, a reordering of lines with distinct dates has distinct dates too |
| Aggregator.MapSumRemove | main.cpp:42-45 | the sum of the values does not depend on the entry taken first, so it does not depend on order |
| Aggregator.SumValuesIsMapSum | main.cpp:42-45 | adding up in key order gives the order-free sum of the mapping |
| Aggregator.ComputeAverageMoisture | main.cpp:38-47 | the result is the mean of the mapping: sum over count, 0 for an empty map |
| Aggregator.MeanIsAverage | main.cpp:46 | for a nonempty map, the mean is the sum of its values divided by its number of entries |
| Aggregator.MeanWithinBounds | main.cpp:38-47 | the mean lies between any lower and upper bound of the values |
| Classifier.AnalyzeMoistureData | main.cpp:50-58 | one of three labels: drought exactly below 20, flood exactly above 80, normal exactly from 20 to 80 inclusive |
| Advisor.SuggestAgriculturalActions | main.cpp:61-69 | irrigation exactly for the drought label, drainage exactly for the flood label, monitoring for every other string |
| Advisor.SuggestionForAverage | main.cpp:50-69 | from an average: irrigate below 20, drain above 80, monitor otherwise |
| Exporter.ExportDataToCsv | main.cpp:72-85 | nothing when the file cannot be opened; otherwise exactly the rows `CsvRows` |
| Exporter.CsvLayout | main.cpp:79-82 | the header first, then one row per map entry (size + 1 rows), keys strictly ascending, each row `date,value` with the map's value for that date |
| Exporter.SplitRow | main.cpp:81 | a row whose date holds no comma splits at its first comma back into date and value text |
| Exporter.CsvRoundTrip | main.cpp:79-82 | reading the written rows back (header, then `key,value`) gives back the same mapping, when no date holds a comma and the value rendering reads back exactly |
| Driver.RunProgram | main.cpp:87-122 | status 1, with no report and no CSV, exactly when the loaded map is empty; otherwise status 0 with the mean, its label and its suggestion, and the CSV rows when the output opens (nothing when it does not) |
| Scenarios.NormalScenario | main.cpp:24-69 | for any line reader and any three distinct dates, lines reading 15.0, 85.0 and 50.0 load three entries whose mean is 50, which is normal and asks for monitoring |
| Scenarios.DroughtScenario | main.cpp:24-69 | for any line reader and any two distinct dates, lines reading 5.0 and 10.0 load two entries whose mean is 7.5, a drought, which asks for irrigation |
| Scenarios.ConcreteNormal | main.cpp:24-69 | the file `2020-01-01 15.0`, `2020-01-02 85.0`, `2020-01-03 50.0`, loaded with `ParseLine`, gives those three entries, mean 50, normal, and monitoring |
| Scenarios.ConcreteDrought | main.cpp:24-69 | the file `2020-01-01 5.0`, `2020-01-02 10.0`, loaded with `ParseLine`, gives those two entries, mean 7.5, drought, and irrigation |
| ExampleLines.NormalLine1 | main.cpp:25-28 | `2020-01-01 15.0` reads as (`2020-01-01`, 15.0) |
| ExampleLines.NormalLine2 | main.cpp:25-28 | `2020-01-02 85.0` reads as (`2020-01-02`, 85.0) |
| ExampleLines.NormalLine3 | main.cpp:25-28 | `2020-01-03 50.0` reads as (`2020-01-03`, 50.0) |
| ExampleLines.DroughtLine1 | main.cpp:25-28 | `2020-01-01 5.0` reads as (`2020-01-01`, 5.0) |
| ExampleLines.DroughtLine2 | main.cpp:25-28 | `2020-01-02 10.0` reads as (`2020-01-02`, 10.0) |
| Scenarios.NormalScenarioCsv | main.cpp:79-82 | the three-entry map exports as the header and three rows in date order |
| Scenarios.EmptyMeanIsDrought | main.cpp:46-52 | the mean of an empty map is 0, which the thresholds class as a drought |

## Left out

- File and stream I/O are parameters; file names and `std::filesystem` path resolution (main.cpp:93-96, 117) are not modelled. The input is `None` or the sequence of lines `getline` returns; the output is `None` or the sequence of lines written, without terminators.
- Console output (main.cpp:16, 19, 75, 97, 101, 107, 111, 119) is not modelled. `RunProgram` returns the average, condition and suggestion line it prints in a `Report`, and `SuggestAgriculturalActions` returns the line instead of writing it.
- `float` is modelled as `real`, so rounding in `total += entry.second` and `total / count`, and float overflow on reading, are not modelled. The `int` counter cannot overflow in the model.
- Number lexing follows libstdc++'s `num_get`, which gathers only a sign, digits, a point and an exponent: `[+-]? digits [. digits]` with at least one digit, taking the longest such prefix. As there, "inf" and "nan" do not read and "0x1p3" reads as 0. Exponents are not modelled: the model reads "1e5" as 1, where the program reads 100000; and it reads "12e" or "5.0each" as 12 or 5.0 and goes on loading, where libstdc++ gathers the `e` into the token, `strtof` leaves it unconverted, `>>` sets failbit and the load stops. Out-of-range values, which make `>>` fail, are not modelled either.
- libc++ differs: its `num_get` also gathers letters such as a-f, x, p, i and n, so under libc++ "12abc" does not read and the load stops, where the model (like libstdc++) reads 12.
- How `outFile << value` renders a float (six significant digits by default) is the `Formatter` parameter.
- `exportDataToCSV` writes dates unquoted (main.cpp:81), and a date token may be any run of non-blank characters, so the program's row for a date holding a comma does not read back as written. `Exporter.CsvRoundTrip` therefore requires comma-free dates; that requirement describes the program, not a gap in the model.
- Exporter.CsvRoundTrip: assumes the rendering reads back exactly. A real `float` rendered with six significant digits does not always do so.
- Keys are compared by character code. `std::string` compares bytes as `unsigned char`, which orders UTF-8 text the same way. Non-UTF-8 bytes are not modelled.
- The `std::map` is a value (`ObservationSet`) that `Put` replaces, not a tree updated in place. Its allocation and iterators are not modelled.
- plot.py, which plots the CSV with pandas and matplotlib, is not part of this model.
