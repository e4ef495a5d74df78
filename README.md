# Car dealership data merger, modelled in Dafny

The program reads vehicle-sale records from the `.csv`, `.json` and `.xml` files
directly inside a data directory; no other file is opened.
It handles three encodings: comma-delimited text with a header line, one JSON
object per line, and an XML-like markup with one tag per line. The
`DataLoader` object counts how often each `car_model` occurs while its three
readers produce the records. All the readers are chained, and every record is
buffered, serialised, to a temporary file. After that first pass the buffer is
read back. Only records whose model was counted at least 3 times across all
files are kept. Each kept record is written as one delimited line after a
fixed header `car_model,year_of_manufacture,price,fuel`. On the way out the
model name is title-cased and the price formatted with two decimals.

The model has four modules:

- `Text` (text.dfy): the string operations the program relies on. These are
  `strip`, `split` and `join` on one character, prefix tests (Dafny's `<=` on
  sequences) and `title`. Each is specified by its meaning: what is removed,
  that `split` and `join` are inverse, and how each character of `title` is
  cased.
- `Records` (records.dfy): the record type, a flat `map<string, string>`, and
  the errors that abort a run. A generator is modelled as a `Stream`: the
  items it yields, then the exception that stopped it, if any. This module
  also holds the frequency table and `Tally`, which builds the table from a
  run of records, with its counting lemmas.
- `Loader` (loader.dfy): one specification function per reader (`CsvRecords`,
  `JsonScan`, `XmlScan`), lemmas that characterise each, and the class
  `DataLoader`. Its field `carModelCounts` is updated by `CountCar`. Its
  methods `ReadCsv`, `ReadJson` and `ReadXml` are loops, each proved to yield
  exactly its specification function's stream. Each also proves that the
  table grows by exactly the records yielded.
- `Pipeline` (pipeline.dfy): the driver. It covers the chaining order, the
  two passes over the temporary buffer, the filter and `format_car`. `Run`
  specifies the whole output. The method `RunPipeline` is proved to write
  exactly `Run`'s lines and to raise `Run`'s exception.

Behaviour that follows from the code and is easy to miss:

- The delimited reader's `if not line` test never fires: `split` always
  returns at least one field. A blank data line therefore becomes a record
  that maps the first header name to `""` (`Loader.CsvBlankLine`).
- A delimited file with no lines at all makes `next(f)` raise StopIteration
  inside the generator, which Python 3.7 and later turn into RuntimeError
  (`Error.NoHeader`).
- `_extract_xml_value` takes the text after the first `>`. The value ends at
  the next `<`, and also at the next `>`, because the split on `>` has already
  cut there.
- A markup line starting with `<year` sets `year_of_manufacture`. Tags are
  matched by prefix, in the order `<car_model`, `<year`, `<price`, `<fuel`,
  `</row`. Fields after the last `</row` are dropped.
- The threshold is the constant 3 in the filter.

## Model

| member | source | states |
|---|---|---|
| Text.Strip | main.py:27 | the result is the slice left after removing leading and trailing whitespace, and it neither starts nor ends with whitespace |
| Text.StripBlank | main.py:40-42 | a line strips to the empty string exactly when every character is whitespace, so these are the lines the structured reader skips |
| Text.Split | main.py:27-29 | `split` never returns an empty list, no field contains the separator, and joining the fields gives the input back |
| Text.Join | main.py:79 | `','.join` of one field is that field, and a joined line starts with its first field followed by the separator when there are more |
| Text.SplitJoin | main.py:79 | splitting a joined line recovers the fields when none contains the separator |
| Text.SplitAtFirst | main.py:49 | the first field ends at the first separator, and the remaining fields are those of the text after it |
| Text.Title | main.py:78 | same length; a letter is upper-cased when no letter precedes it and lower-cased otherwise; other characters are kept |
| Text.TitleIdempotent | main.py:78 | title-casing a title-cased name changes nothing |
| Text.TitleFromAppend | main.py:78 | title-casing works piecewise on a concatenation, carrying whether the left part ends in a letter |
| Text.TitleWordStarts | main.py:78 | a letter after a space or a hyphen starts a word ("model s" gives "Model S", "e-tron" gives "E-Tron") |
| Text.TitleExamples | main.py:78 | "CIVIC" gives "Civic"; a digit does not start a word, so "1st" gives "1St" |
| Records.Bump | main.py:22 | one more occurrence of the model, starting from 0 for an unseen model; every other count is unchanged |
| Records.Tally | main.py:21-22 | after bumping every record's model, each count has grown by its number of occurrences, and the table gains exactly the models that occur |
| Records.TallyAppend | main.py:21-22 | counting two runs one after the other equals counting their concatenation, so one table can serve every reader |
| Records.TallyTotal | main.py:21-22 | the counts add up to one per record counted |
| Records.Zip | main.py:32 | `dict(zip(header, fields))` has the keys of the first positions, up to the shorter of the two lists |
| Records.ZipValue | main.py:32 | each key holds the value paired with its last position |
| Loader.Counted | main.py:33-35 | every record the delimited reader's count-then-yield step passes on has `car_model` |
| Loader.CountedPrefix | main.py:33-35 | a counting reader yields a prefix of the records; it stops with KeyError just before the first record without `car_model`, and yields all of them otherwise |
| Loader.CsvRow | main.py:29-32 | a data line's record has only header names as keys, and always the first header name |
| Loader.CsvRows | main.py:29-35 | one record per data line, record `k` being that of line `k` |
| Loader.CsvRecords | main.py:24-27 | an empty delimited file yields nothing and fails with the missing-header error |
| Loader.CsvRecordsRows | main.py:24-35 | record `k` is line `k+1` stripped, split and zipped with the header, blank lines included; the stream stops early exactly at the first line whose record has no `car_model` |
| Loader.CsvBlankLine | main.py:29-32 | a blank data line becomes the record mapping the first header name to the empty string |
| Loader.NonBlank | main.py:40-42 | at most one text per line is kept |
| Loader.NonBlankStripped | main.py:40-42 | each text kept is non-empty and neither starts nor ends with whitespace |
| Loader.JsonScan | main.py:37-46 | every record the structured reader yields has `car_model` |
| Loader.JsonScanLines | main.py:37-46 | record `k` is the decoding of the `k`-th non-blank stripped line; the stream stops early exactly when some non-blank line does not decode to a record with `car_model`, and then at the first such line, with Undecodable when it does not decode and KeyError when the record has no `car_model` |
| Loader.ExtractXmlValue | main.py:48-49 | IndexError exactly on a line without '>'; a value never contains '<' or '>' |
| Loader.ExtractXmlValueText | main.py:48-49 | a line without '>' fails with IndexError; otherwise the value is the text after the first '>' up to the next '<' or '>' |
| Loader.XmlField | main.py:56-63 | a line that sets a field starts with '<', and the field is one of the four columns |
| Loader.XmlScan | main.py:51-68 | every record yielded has `car_model`, and starting from an empty record no record has keys beyond the four fields |
| Loader.Accumulate | main.py:53-63 | tag lines only add fields to the record being collected, and only the four fields |
| Loader.AccumulateLastWins | main.py:56-63 | a later tag line for a field overrides every earlier one |
| Loader.XmlScanBlock | main.py:54-63 | lines before the next closing line only collect fields, or stop the file at a tag line without '>' |
| Loader.XmlRecordPerRow | main.py:53-68 | at each `</row` line the reader yields exactly the fields set since the previous one, or raises KeyError when there is no `car_model`, then starts from an empty record |
| Loader.XmlTrailingFields | main.py:53-68 | fields after the last closing line are never yielded |
| Loader.DataLoader.constructor | main.py:17-19 | a new loader has an empty table |
| Loader.DataLoader.CountCar | main.py:21-22 | bumps the record's model, or raises KeyError and leaves the table unchanged when the record has no `car_model` |
| Loader.DataLoader.ReadCsv | main.py:24-35 | yields exactly `CsvRecords`, and the table grows by exactly the records yielded |
| Loader.DataLoader.ReadJson | main.py:37-46 | yields exactly `JsonScan`, and the table grows by exactly the records yielded |
| Loader.DataLoader.ReadXml | main.py:51-68 | yields exactly `XmlScan` from an empty record, and the table grows by exactly the records yielded |
| Pipeline.Sources | main.py:101-104 | the chain holds every delimited file, then every structured file, then every markup file, in the order given |
| Pipeline.Ingest | main.py:101-105 | every record chained has `car_model` |
| Pipeline.FileRecords | main.py:102-104 | whichever encoding's reader handles a file, every record it yields has `car_model` |
| Pipeline.IngestAppend | main.py:101-105 | chaining two runs of files reads the second only when the first ends without an exception |
| Pipeline.IngestCounts | main.py:101-105 | after a successful pass one, each model's count is the sum over all files of its occurrences |
| Pipeline.IngestTotal | main.py:101-112 | after pass one the counts add up to the number of buffered records |
| Pipeline.TallyCountsAll | main.py:125 | every buffered record's model is in the table, so the filter's lookup cannot raise KeyError |
| Pipeline.Retain | main.py:123-126 | the filter keeps at most the records it is given |
| Pipeline.RetainReachesThreshold | main.py:123-126 | every kept record's model has a count of at least 3 |
| Pipeline.RetainAppend | main.py:123-126 | filtering keeps order and works on each part of a concatenation separately |
| Pipeline.RetainMultiset | main.py:123-126 | each copy of a record is kept when its model's count reaches 3, and no copy is kept otherwise |
| Pipeline.RetainedIff | main.py:123-126 | a buffered record is written exactly when its model occurs at least 3 times among all buffered records |
| Pipeline.HeaderLine | main.py:115-117 | the header line is the four column names joined with ',' |
| Pipeline.HeaderLineColumns | main.py:115-116 | splitting the header line on ',' gives back the four names |
| Pipeline.Formatted | main.py:74-79 | formatting succeeds exactly when the record has a price that parses and a model; otherwise KeyError for the price is raised first, then the parse error, then KeyError for the model |
| Pipeline.FormattedColumns | main.py:74-79 | a formatted line splits back into its columns when no value contains ',' |
| Pipeline.OutputFields | main.py:79 | one field per header name, field `i` being the record's value for name `i` (the title-cased model, the formatted price, or empty when missing) |
| Pipeline.HeaderColumns | main.py:77-79 | the columns are the title-cased model, the year, the formatted price and the fuel, with missing values empty |
| Pipeline.FormatAll | main.py:129-131 | at most one line per kept record, and exactly one each when no record fails |
| Pipeline.FormatAllLines | main.py:129-131 | line `k` is the formatting of kept record `k`; writing stops exactly at the first record that cannot be formatted, with that record's error |
| Pipeline.Run | main.py:95-131 | the output has lines exactly when pass one raises nothing, and its first line is then the header |
| Pipeline.RunOutput | main.py:114-131 | after a successful pass one the output is the header, then one line per kept record in reading order; it stops early only when a record fails to format, with the error of the first kept record that has no line |
| Pipeline.RunPipeline | main.py:95-131 | the lines written and the exception raised are exactly those of `Run` |
| Pipeline.IngestPass | main.py:101-112 | pass one raises the chain's exception, or buffers exactly the chain's records, serialised in order; the table grows by exactly those records |
| Pipeline.ReadSource | main.py:101-104 | each file is read by its encoding's reader |
| Pipeline.FilterPass | main.py:112-131 | pass two writes the header, then each buffered record whose count reaches 3, formatted, stopping at the first formatting error |
| Pipeline.BufferRecords | main.py:108-110 | each record is appended to the buffer as one serialised line, in order |
| Pipeline.Dumped | main.py:108-110 | the temporary buffer holds one line per record |
| Pipeline.DumpedAppend | main.py:108-110 | buffering two runs one after the other gives the lines of their concatenation |
| Pipeline.DumpedAt | main.py:108-110 | buffer line `k` holds record `k` |
| Pipeline.FormatCar | main.py:74-79 | KeyError when there is no price; the parse error when the price is not a number; KeyError when there is no model; otherwise the columns joined with ',', as `Formatted` defines |

## Left out

- Files, directories and globbing: each file is given as its sequence of lines. The order in which `glob` lists files is an input (`Sources`).
- JSON: `json.loads` of a line is the parameter `decode`, and a line that does not decode to an object is the error `Undecodable`. `json.dump` and the read-back of the temporary buffer are the parameters `dump` and `load`; `RunPipeline` requires that `load` gives back what `dump` wrote.
- Pipeline.FormatCar: `float(price)` followed by `f'{price:.2f}'` is the parameter `formatPrice`. Its result `None` stands for the ValueError on a price that is not a number. Floating-point rounding is not modelled.
- Record values are text. JSON values that are numbers or other types, and their conversion by `str` in `format_car`, are not modelled.
- Text.Strip, Text.Title: restricted to ASCII. Unicode whitespace and Unicode letters, which Python's `strip` and `title` also handle, are not handled.
- Laziness: the chained generators interleave reading with buffering. The model reads each file to its end before buffering it. The output is the same because any exception in pass one happens before the header is written. When pass one raises, `IngestPass` returns the lines buffered so far, and the run discards them.
- The progress bars (`tqdm`), the `sleep` delay, the `DELAY` setting and the output file's trailing newline after each line are not modelled; output is the list of lines written.
- The threshold is fixed at 3, as in the code; it is not a parameter.
