/** The two-pass driver: read every source file in a fixed order while counting
    models and buffering records, then re-read the buffer, keep the records
    whose model was seen often enough, and write them as delimited lines after
    a fixed header. */
module Pipeline {
  import opened Text
  import opened Records
  import opened Loader

  /** The number of occurrences a model needs for its records to be kept. */
  const Threshold: nat := 3

  /** The output columns, in order. */
  const Header: seq<string> := [CarModel, YearOfManufacture, Price, Fuel]

  /** One source file, as its lines, tagged with its encoding. */
  datatype SourceFile =
    | CsvFile(lines: seq<string>)
    | JsonFile(lines: seq<string>)
    | XmlFile(lines: seq<string>)

  /** The chain order: every delimited file, then every structured-record
      file, then every markup file, each group in the order given. */
  function Sources(csvFiles: seq<seq<string>>, jsonFiles: seq<seq<string>>, xmlFiles: seq<seq<string>>)
    : (sources: seq<SourceFile>)
    ensures |sources| == |csvFiles| + |jsonFiles| + |xmlFiles|
    ensures forall i :: 0 <= i < |csvFiles| ==> sources[i] == CsvFile(csvFiles[i])
    ensures forall i :: 0 <= i < |jsonFiles| ==> sources[|csvFiles| + i] == JsonFile(jsonFiles[i])
    ensures forall i :: 0 <= i < |xmlFiles| ==> sources[|csvFiles| + |jsonFiles| + i] == XmlFile(xmlFiles[i])
  {
    seq(|csvFiles|, i requires 0 <= i < |csvFiles| => CsvFile(csvFiles[i]))
    + seq(|jsonFiles|, i requires 0 <= i < |jsonFiles| => JsonFile(jsonFiles[i]))
    + seq(|xmlFiles|, i requires 0 <= i < |xmlFiles| => XmlFile(xmlFiles[i]))
  }

  /** What the reader for a file's encoding yields for it. */
  function FileRecords(source: SourceFile, decode: string -> Option<Record>): (s: Stream<Record>)
    ensures AllHaveModel(s.items)
  {
    match source
    case CsvFile(lines) => CsvRecords(lines)
    case JsonFile(lines) => JsonScan(lines, decode)
    case XmlFile(lines) => XmlScan(lines, map[])
  }

  /** The chained readers: the records of each file in turn; the first
      exception ends the chain. */
  function Ingest(sources: seq<SourceFile>, decode: string -> Option<Record>): (s: Stream<Record>)
    ensures AllHaveModel(s.items)
    decreases |sources|
  {
    if sources == [] then Stream([], None)
    else
      var first := FileRecords(sources[0], decode);
      if first.failure.Some? then first
      else Prepend(first.items, Ingest(sources[1..], decode))
  }

  /** Chaining two runs of files is chaining the first and, if it ends
      without an exception, then the second. */
  lemma {:induction false} IngestAppend(a: seq<SourceFile>, b: seq<SourceFile>, decode: string -> Option<Record>)
    ensures var first := Ingest(a, decode);
            Ingest(a + b, decode) == if first.failure.Some? then first else Prepend(first.items, Ingest(b, decode))
    decreases |a|
  {
    if a == [] {
      assert a + b == b;
    } else {
      assert (a + b)[0] == a[0] && (a + b)[1..] == a[1..] + b;
      var first := FileRecords(a[0], decode);
      if first.failure.None? {
        IngestAppend(a[1..], b, decode);
        var rest := Ingest(a[1..], decode);
        if rest.failure.None? {
          PrependPrepend(first.items, rest.items, Ingest(b, decode));
        }
      }
    }
  }

  /** The sum, over the files, of the occurrences of `model` among the
      records each file's reader yields. */
  function SourceOccurrences(sources: seq<SourceFile>, decode: string -> Option<Record>, model: string): nat
    decreases |sources|
  {
    if sources == [] then 0
    else Occurrences(FileRecords(sources[0], decode).items, model) + SourceOccurrences(sources[1..], decode, model)
  }

  /** After a successful ingestion the count of every model is the number of
      its records across all files of all three encodings together. */
  lemma {:induction false} IngestCounts(sources: seq<SourceFile>, decode: string -> Option<Record>, model: string)
    requires Ingest(sources, decode).failure.None?
    ensures Get(Tally(map[], Ingest(sources, decode).items), model) == SourceOccurrences(sources, decode, model)
    decreases |sources|
  {
    if sources != [] {
      IngestCounts(sources[1..], decode, model);
      OccurrencesAppend(FileRecords(sources[0], decode).items, Ingest(sources[1..], decode).items, model);
    }
  }

  /** After ingestion the counts add up to the number of buffered records. */
  lemma IngestTotal(sources: seq<SourceFile>, decode: string -> Option<Record>)
    ensures Total(Tally(map[], Ingest(sources, decode).items)) == |Ingest(sources, decode).items|
  {
    TallyTotal(map[], Ingest(sources, decode).items);
  }

  // ---------------------------------------------------------------------
  // The filter

  /** Every record has a model, and that model is in the table. */
  predicate AllCounted(cars: seq<Record>, counts: Counts) {
    forall i :: 0 <= i < |cars| ==> HasModel(cars[i]) && cars[i][CarModel] in counts
  }

  /** A table built from a run of records has an entry for each of them. */
  lemma TallyCountsAll(cars: seq<Record>)
    requires AllHaveModel(cars)
    ensures AllCounted(cars, Tally(map[], cars))
  {
    forall i | 0 <= i < |cars| ensures cars[i][CarModel] in Models(cars) {
    }
  }

  /** The records whose model's count reaches the threshold, in their order. */
  function Retain(cars: seq<Record>, counts: Counts): (kept: seq<Record>)
    requires AllCounted(cars, counts)
    ensures |kept| <= |cars|
    decreases |cars|
  {
    if cars == [] then []
    else
      (if counts[cars[0][CarModel]] >= Threshold then [cars[0]] else []) + Retain(cars[1..], counts)
  }

  lemma AllCountedAppend(a: seq<Record>, b: seq<Record>, counts: Counts)
    requires AllCounted(a, counts) && AllCounted(b, counts)
    ensures AllCounted(a + b, counts)
  {
    assert forall i :: 0 <= i < |a + b| ==> (a + b)[i] == if i < |a| then a[i] else b[i - |a|];
  }

  /** Every kept record's model was counted at least `Threshold` times. */
  lemma {:induction false} RetainReachesThreshold(cars: seq<Record>, counts: Counts)
    requires AllCounted(cars, counts)
    ensures var kept := Retain(cars, counts);
            AllCounted(kept, counts) && forall i :: 0 <= i < |kept| ==> counts[kept[i][CarModel]] >= Threshold
    decreases |cars|
  {
    if cars != [] {
      RetainReachesThreshold(cars[1..], counts);
    }
  }

  /** Filtering keeps order: it works on each part of a concatenation
      separately. */
  lemma {:induction false} RetainAppend(a: seq<Record>, b: seq<Record>, counts: Counts)
    requires AllCounted(a, counts) && AllCounted(b, counts)
    ensures AllCounted(a + b, counts)
    ensures Retain(a + b, counts) == Retain(a, counts) + Retain(b, counts)
    decreases |a|
  {
    AllCountedAppend(a, b, counts);
    if a == [] {
      assert a + b == b;
    } else {
      assert (a + b)[0] == a[0] && (a + b)[1..] == a[1..] + b;
      AllCountedAppend(a[1..], b, counts);
      RetainAppend(a[1..], b, counts);
      var head := if counts[a[0][CarModel]] >= Threshold then [a[0]] else [];
      assert Retain(a + b, counts) == head + Retain(a[1..] + b, counts);
      assert Retain(a, counts) == head + Retain(a[1..], counts);
      assert head + (Retain(a[1..], counts) + Retain(b, counts))
          == (head + Retain(a[1..], counts)) + Retain(b, counts);
    }
  }

  /** Filtering keeps every copy of a record whose model reaches the
      threshold and no copy of any other record. */
  lemma {:induction false} RetainMultiset(cars: seq<Record>, counts: Counts, car: Record)
    requires AllCounted(cars, counts)
    ensures multiset(Retain(cars, counts))[car]
         == if car in cars && counts[car[CarModel]] >= Threshold then multiset(cars)[car] else 0
    decreases |cars|
  {
    if cars != [] {
      RetainMultiset(cars[1..], counts, car);
      assert cars == [cars[0]] + cars[1..];
      assert car in cars ==> car == cars[0] || car in cars[1..];
    }
  }

  /** A buffered record is written exactly when its model occurs at least
      `Threshold` times among all buffered records. */
  lemma RetainedIff(cars: seq<Record>, car: Record)
    requires AllHaveModel(cars) && car in cars
    ensures AllCounted(cars, Tally(map[], cars))
    ensures car in Retain(cars, Tally(map[], cars)) <==> Occurrences(cars, car[CarModel]) >= Threshold
  {
    var counts := Tally(map[], cars);
    TallyCountsAll(cars);
    RetainMultiset(cars, counts, car);
    assert Get(counts, car[CarModel]) == Occurrences(cars, car[CarModel]);
  }

  // ---------------------------------------------------------------------
  // The formatter

  /** The text written for column `h`: the title-cased model, the formatted
      price, or the record's value, empty when the record has none. */
  function OutputField(car: Record, h: string, price: string): string
    requires HasModel(car)
  {
    if h == CarModel then Title(car[CarModel])
    else if h == Price then price
    else if h in car then car[h]
    else ""
  }

  /** `[str(car.get(h, "")) for h in header]`, with the two reformatted columns. */
  function OutputFields(car: Record, header: seq<string>, price: string): (fields: seq<string>)
    requires HasModel(car)
    ensures |fields| == |header|
    ensures forall i :: 0 <= i < |header| ==> fields[i] == OutputField(car, header[i], price)
  {
    seq(|header|, i requires 0 <= i < |header| => OutputField(car, header[i], price))
  }

  /** The output line for a record: fails with KeyError when there is no
      price, with the parse error when the price is not a number (`formatPrice`
      stands for `float` and two-decimal formatting), and with KeyError when
      there is no model; otherwise the columns joined with ','. */
  function Formatted(car: Record, header: seq<string>, formatPrice: string -> Option<string>): (r: Result<string>)
    ensures r.Ok? <==> Price in car && formatPrice(car[Price]).Some? && HasModel(car)
    ensures r.Err? ==> r.error == if Price !in car then MissingKey(Price)
                                  else if formatPrice(car[Price]).None? then BadPrice(car[Price])
                                  else MissingKey(CarModel)
  {
    if Price !in car then Err(MissingKey(Price))
    else match formatPrice(car[Price])
      case None => Err(BadPrice(car[Price]))
      case Some(price) =>
        if !HasModel(car) then Err(MissingKey(CarModel))
        else Ok(Join(OutputFields(car, header, price), ','))
  }

  /** The header line, always the first line of the output. */
  function HeaderLine(): (line: string)
    ensures line == CarModel + [','] + YearOfManufacture + [','] + Price + [','] + Fuel
  {
    var tail := [Price, Fuel];
    assert Join(tail, ',') == Price + [','] + Fuel by {
      assert tail[1..] == [Fuel];
    }
    assert Join([YearOfManufacture] + tail, ',') == YearOfManufacture + [','] + Join(tail, ',') by {
      assert ([YearOfManufacture] + tail)[1..] == tail;
    }
    assert Header == [CarModel] + ([YearOfManufacture] + tail);
    assert Join(Header, ',') == CarModel + [','] + Join([YearOfManufacture] + tail, ',') by {
      assert Header[1..] == [YearOfManufacture] + tail;
    }
    Join(Header, ',')
  }

  /** Splitting the header line on ',' gives back the four column names. */
  lemma HeaderLineColumns()
    ensures Split(HeaderLine(), ',') == Header
  {
    assert forall i :: 0 <= i < |Header| ==> ',' !in Header[i];
    SplitJoin(Header, ',');
  }

  /** The columns of a formatted line can be read back by splitting it on
      ',', provided no value contains ','. */
  lemma FormattedColumns(car: Record, header: seq<string>, formatPrice: string -> Option<string>)
    requires header != []
    requires Formatted(car, header, formatPrice).Ok?
    ensures Price in car && formatPrice(car[Price]).Some? && HasModel(car)
    ensures var fields := OutputFields(car, header, formatPrice(car[Price]).value);
            (forall i :: 0 <= i < |fields| ==> ',' !in fields[i]) ==>
              Split(Formatted(car, header, formatPrice).value, ',') == fields
  {
    var fields := OutputFields(car, header, formatPrice(car[Price]).value);
    if forall i :: 0 <= i < |fields| ==> ',' !in fields[i] {
      SplitJoin(fields, ',');
    }
  }

  /** With the fixed header the four columns are the title-cased model, the
      year, the formatted price and the fuel, missing ones empty. */
  lemma HeaderColumns(car: Record, price: string)
    requires HasModel(car)
    ensures OutputFields(car, Header, price)
         == [Title(car[CarModel]),
             if YearOfManufacture in car then car[YearOfManufacture] else "",
             price,
             if Fuel in car then car[Fuel] else ""]
  {
  }

  /** Formatting the records in order; the first failure ends the output. */
  function FormatAll(cars: seq<Record>, header: seq<string>, formatPrice: string -> Option<string>)
    : (s: Stream<string>)
    ensures |s.items| <= |cars|
    ensures s.failure.None? ==> |s.items| == |cars|
    decreases |cars|
  {
    if cars == [] then Stream([], None)
    else
      var line := Formatted(cars[0], header, formatPrice);
      if line.Err? then Stream([], Some(line.error))
      else Prepend([line.value], FormatAll(cars[1..], header, formatPrice))
  }

  /** Line `k` is the formatting of record `k`; the lines stop early exactly
      at the first record that cannot be formatted. */
  lemma {:induction false} FormatAllLines(cars: seq<Record>, header: seq<string>, formatPrice: string -> Option<string>)
    ensures var s := FormatAll(cars, header, formatPrice);
            && |s.items| <= |cars|
            && (forall k :: 0 <= k < |s.items| ==> Formatted(cars[k], header, formatPrice) == Ok(s.items[k]))
            && (s.failure.None? <==> |s.items| == |cars|)
            && (s.failure.Some? ==> Formatted(cars[|s.items|], header, formatPrice) == Err(s.failure.value))
    decreases |cars|
  {
    if cars != [] && Formatted(cars[0], header, formatPrice).Ok? {
      FormatAllLines(cars[1..], header, formatPrice);
      var s := FormatAll(cars, header, formatPrice);
      var t := FormatAll(cars[1..], header, formatPrice);
      assert s == Stream([Formatted(cars[0], header, formatPrice).value] + t.items, t.failure);
      forall k | 1 <= k < |s.items| ensures Formatted(cars[k], header, formatPrice) == Ok(s.items[k]) {
        assert s.items[k] == t.items[k - 1] && cars[k] == cars[1..][k - 1];
      }
      if s.failure.Some? {
        assert cars[|s.items|] == cars[1..][|t.items|];
      }
    }
  }

  // ---------------------------------------------------------------------
  // The whole run

  /** The lines written to the output file and the exception, if any, that
      ended the run. An exception while reading leaves the output empty; once
      reading is done the header is written, then one line per kept record. */
  function Run(sources: seq<SourceFile>, decode: string -> Option<Record>, formatPrice: string -> Option<string>)
    : (out: Stream<string>)
    ensures |out.items| >= 1 <==> Ingest(sources, decode).failure.None?
    ensures out.items != [] ==> out.items[0] == HeaderLine()
  {
    var ingested := Ingest(sources, decode);
    if ingested.failure.Some? then Stream([], ingested.failure)
    else
      TallyCountsAll(ingested.items);
      var counts := Tally(map[], ingested.items);
      Prepend([HeaderLine()], FormatAll(Retain(ingested.items, counts), Header, formatPrice))
  }

  /** When every file is read without an exception the output starts with the
      header, also when no record is kept; its other lines are the kept
      records, formatted, in the order they were read. */
  lemma RunOutput(sources: seq<SourceFile>, decode: string -> Option<Record>, formatPrice: string -> Option<string>)
    requires Ingest(sources, decode).failure.None?
    ensures var cars := Ingest(sources, decode).items;
            var out := Run(sources, decode, formatPrice);
            && AllCounted(cars, Tally(map[], cars))
            && var kept := Retain(cars, Tally(map[], cars));
            && |out.items| >= 1 && out.items[0] == HeaderLine()
            && var lines := out.items[1..];
            && |lines| <= |kept|
            && (forall k :: 0 <= k < |lines| ==> Formatted(kept[k], Header, formatPrice) == Ok(lines[k]))
            && (out.failure.None? <==> |lines| == |kept|)
            && (out.failure.Some? ==> Formatted(kept[|lines|], Header, formatPrice) == Err(out.failure.value))
  {
    var cars := Ingest(sources, decode).items;
    TallyCountsAll(cars);
    var kept := Retain(cars, Tally(map[], cars));
    FormatAllLines(kept, Header, formatPrice);
    var out := Run(sources, decode, formatPrice);
    assert out == Prepend([HeaderLine()], FormatAll(kept, Header, formatPrice));
  }

  /** The driver. `dump` and `load` stand for the JSON serialisation of a
      record to one line of the temporary buffer and back; the run relies on
      reading back exactly what was written. */
  method RunPipeline(csvFiles: seq<seq<string>>, jsonFiles: seq<seq<string>>, xmlFiles: seq<seq<string>>,
                     decode: string -> Option<Record>, dump: Record -> string, load: string -> Option<Record>,
                     formatPrice: string -> Option<string>)
    returns (written: seq<string>, failure: Option<Error>)
    requires forall car :: load(dump(car)) == Some(car)
    ensures Stream(written, failure) == Run(Sources(csvFiles, jsonFiles, xmlFiles), decode, formatPrice)
  {
    var sources := Sources(csvFiles, jsonFiles, xmlFiles);
    var loader := new DataLoader();
    var buffer: seq<string>;
    ghost var buffered: seq<Record>;
    buffer, buffered, failure := IngestPass(loader, sources, decode, dump);
    if failure.Some? {
      return [], failure;
    }
    TallyCountsAll(buffered);
    forall k | 0 <= k < |buffer| ensures load(buffer[k]) == Some(buffered[k]) {
      DumpedAt(buffered, dump, k);
    }
    written, failure := FilterPass(buffer, buffered, load, loader.carModelCounts, formatPrice);
  }

  /** Pass one: reads every file, counting each record and appending it,
      serialised, to the buffer. On an exception the pass stops with it. */
  method IngestPass(loader: DataLoader, sources: seq<SourceFile>, decode: string -> Option<Record>,
                    dump: Record -> string)
    returns (buffer: seq<string>, ghost buffered: seq<Record>, failure: Option<Error>)
    modifies loader
    ensures failure == Ingest(sources, decode).failure
    ensures failure.None? ==> buffered == Ingest(sources, decode).items
    ensures AllHaveModel(buffered) && buffer == Dumped(buffered, dump)
    ensures loader.carModelCounts == Tally(old(loader.carModelCounts), buffered)
  {
    buffer, buffered := [], [];
    var i := 0;
    while i < |sources|
      invariant 0 <= i <= |sources|
      invariant Prepend(buffered, Ingest(sources[i..], decode)) == Ingest(sources, decode)
      invariant AllHaveModel(buffered) && buffer == Dumped(buffered, dump)
      invariant loader.carModelCounts == Tally(old(loader.carModelCounts), buffered)
    {
      var s := ReadSource(loader, sources[i], decode);
      IngestStep(sources, i, buffered, decode);
      TallyAppend(old(loader.carModelCounts), buffered, s.items);
      DumpedAppend(buffered, s.items, dump);
      buffer := BufferRecords(buffer, s.items, dump);
      if s.failure.Some? {
        return buffer, buffered + s.items, s.failure;
      }
      buffered := buffered + s.items;
      i := i + 1;
    }
    assert sources[i..] == [] && buffered + [] == buffered;
    return buffer, buffered, None;
  }

  /** The buffer lines for a run of records, one per record. */
  function Dumped(cars: seq<Record>, dump: Record -> string): (lines: seq<string>)
    ensures |lines| == |cars|
    decreases |cars|
  {
    if cars == [] then [] else Dumped(cars[..|cars| - 1], dump) + [dump(cars[|cars| - 1])]
  }

  /** Line `k` of the buffer holds record `k`. */
  lemma {:induction false} DumpedAt(cars: seq<Record>, dump: Record -> string, k: nat)
    requires k < |cars|
    ensures Dumped(cars, dump)[k] == dump(cars[k])
    decreases |cars|
  {
    if k < |cars| - 1 {
      DumpedAt(cars[..|cars| - 1], dump, k);
    }
  }

  lemma {:induction false} DumpedAppend(a: seq<Record>, b: seq<Record>, dump: Record -> string)
    ensures Dumped(a + b, dump) == Dumped(a, dump) + Dumped(b, dump)
    decreases |b|
  {
    if b == [] {
      assert a + b == a;
    } else {
      assert (a + b)[..|a + b| - 1] == a + b[..|b| - 1];
      DumpedAppend(a, b[..|b| - 1], dump);
    }
  }

  /** Reads one file with the reader for its encoding. */
  method ReadSource(loader: DataLoader, source: SourceFile, decode: string -> Option<Record>) returns (s: Stream<Record>)
    modifies loader
    ensures s == FileRecords(source, decode)
    ensures loader.carModelCounts == Tally(old(loader.carModelCounts), s.items)
  {
    match source {
      case CsvFile(lines) => s := loader.ReadCsv(lines);
      case JsonFile(lines) => s := loader.ReadJson(lines, decode);
      case XmlFile(lines) => s := loader.ReadXml(lines);
    }
  }

  /** Having yielded `buffered` from the files before position `i`, the
      chain goes on with the records of file `i`; it ends with that file's
      exception if there is one. */
  lemma IngestStep(sources: seq<SourceFile>, i: nat, buffered: seq<Record>, decode: string -> Option<Record>)
    requires i < |sources|
    requires Prepend(buffered, Ingest(sources[i..], decode)) == Ingest(sources, decode)
    ensures var first := FileRecords(sources[i], decode);
            if first.failure.Some? then Ingest(sources, decode).failure == first.failure
            else Prepend(buffered + first.items, Ingest(sources[i + 1..], decode)) == Ingest(sources, decode)
  {
    IngestUnfold(sources, i, decode);
    var first := FileRecords(sources[i], decode);
    if first.failure.None? {
      PrependPrepend(buffered, first.items, Ingest(sources[i + 1..], decode));
    }
  }

  lemma IngestUnfold(sources: seq<SourceFile>, i: nat, decode: string -> Option<Record>)
    requires i < |sources|
    ensures var first := FileRecords(sources[i], decode);
            Ingest(sources[i..], decode)
              == if first.failure.Some? then first else Prepend(first.items, Ingest(sources[i + 1..], decode))
  {
    assert sources[i..][1..] == sources[i + 1..];
  }

  /** Re-reads the buffer, keeps the records of models counted at least
      `Threshold` times and writes the header and then each kept record. The
      table lookup cannot fail: every buffered model was counted. */
  method FilterPass(buffer: seq<string>, ghost cars: seq<Record>, load: string -> Option<Record>,
                    counts: Counts, formatPrice: string -> Option<string>)
    returns (written: seq<string>, failure: Option<Error>)
    requires |buffer| == |cars| && forall k :: 0 <= k < |buffer| ==> load(buffer[k]) == Some(cars[k])
    requires AllCounted(cars, counts)
    ensures Stream(written, failure) == Prepend([HeaderLine()], FormatAll(Retain(cars, counts), Header, formatPrice))
  {
    written := [HeaderLine()];
    ghost var goal := Prepend([HeaderLine()], FormatAll(Retain(cars, counts), Header, formatPrice));
    assert cars[0..] == cars;
    var j := 0;
    while j < |buffer|
      invariant 0 <= j <= |buffer|
      invariant Prepend(written, FormatAll(Retain(cars[j..], counts), Header, formatPrice)) == goal
    {
      var car := load(buffer[j]).value;
      assert car == cars[j];
      RetainStep(cars, j, counts);
      ghost var later := Retain(cars[j + 1..], counts);
      if counts[car[CarModel]] >= Threshold {
        var line := FormatCar(car, Header, formatPrice);
        FormatAllStep(car, later, Header, formatPrice);
        if line.Err? {
          assert FormatAll(Retain(cars[j..], counts), Header, formatPrice) == Stream([], Some(line.error));
          return written, Some(line.error);
        }
        ghost var rest := FormatAll(later, Header, formatPrice);
        assert FormatAll(Retain(cars[j..], counts), Header, formatPrice) == Prepend([line.value], rest);
        PrependPrepend(written, [line.value], rest);
        written := written + [line.value];
      } else {
        assert Retain(cars[j..], counts) == later;
      }
      j := j + 1;
    }
    assert cars[j..] == [];
    return written, None;
  }

  /** Filtering the records from position `j` on is deciding record `j`,
      then filtering the rest. */
  lemma RetainStep(cars: seq<Record>, j: nat, counts: Counts)
    requires j < |cars| && AllCounted(cars, counts)
    ensures AllCounted(cars[j..], counts) && AllCounted(cars[j + 1..], counts)
    ensures Retain(cars[j..], counts)
         == (if counts[cars[j][CarModel]] >= Threshold then [cars[j]] else []) + Retain(cars[j + 1..], counts)
  {
    assert cars[j..][1..] == cars[j + 1..];
  }

  /** Formatting a run that starts with `car`: its line, then the others',
      unless it cannot be formatted. */
  lemma FormatAllStep(car: Record, rest: seq<Record>, header: seq<string>, formatPrice: string -> Option<string>)
    ensures var line := Formatted(car, header, formatPrice);
            FormatAll([car] + rest, header, formatPrice)
              == if line.Err? then Stream([], Some(line.error)) else Prepend([line.value], FormatAll(rest, header, formatPrice))
  {
    assert ([car] + rest)[1..] == rest;
  }

  /** Appends each record, serialised by `dump`, as one line of the buffer. */
  method BufferRecords(buffer: seq<string>, cars: seq<Record>, dump: Record -> string) returns (out: seq<string>)
    ensures out == buffer + Dumped(cars, dump)
  {
    out := buffer;
    var k := 0;
    while k < |cars|
      invariant 0 <= k <= |cars|
      invariant out == buffer + Dumped(cars[..k], dump)
    {
      assert cars[..k + 1][..k] == cars[..k];
      out := out + [dump(cars[k])];
      k := k + 1;
    }
    assert cars[..k] == cars;
  }

  /** `format_car`: overwrites the price with its formatted form and the
      model with its title-cased form, then joins the header's columns. */
  method FormatCar(car: Record, header: seq<string>, formatPrice: string -> Option<string>) returns (line: Result<string>)
    ensures line == Formatted(car, header, formatPrice)
  {
    if Price !in car {
      return Err(MissingKey(Price));
    }
    var price := formatPrice(car[Price]);
    if price.None? {
      return Err(BadPrice(car[Price]));
    }
    var c := car[Price := price.value];
    if CarModel !in c {
      return Err(MissingKey(CarModel));
    }
    c := c[CarModel := Title(c[CarModel])];
    var fields := seq(|header|, i requires 0 <= i < |header| => if header[i] in c then c[header[i]] else "");
    assert fields == OutputFields(car, header, price.value);
    return Ok(Join(fields, ','));
  }
}
