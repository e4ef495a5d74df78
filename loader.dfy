/** The three record readers — delimited text, one structured object per line,
    and tag-per-line markup — and the loader object that counts every record a
    reader produces before the record is handed on. */
module Loader {
  import opened Text
  import opened Records

  // ---------------------------------------------------------------------
  // Delimited text

  /** One data line of a delimited file, stripped, split on ',' and paired
      position by position with the header. */
  function CsvRow(header: seq<string>, line: string): (car: Record)
    ensures forall k :: k in car ==> k in header
    ensures header != [] ==> header[0] in car
  {
    Zip(header, Split(Strip(line), ','))
  }

  /** The records of the data lines that follow the header, one per line,
      blank lines included. */
  function CsvRows(header: seq<string>, lines: seq<string>): (rows: seq<Record>)
    ensures |rows| == |lines|
    ensures forall k :: 0 <= k < |lines| ==> rows[k] == CsvRow(header, lines[k])
  {
    seq(|lines|, k requires 0 <= k < |lines| => CsvRow(header, lines[k]))
  }

  /** What a reader yields when it counts each record before yielding it:
      the records in order, stopping with KeyError at the first record that
      has no `car_model`. */
  function Counted(cars: seq<Record>): (s: Stream<Record>)
    ensures AllHaveModel(s.items)
  {
    if cars == [] then Stream([], None)
    else if !HasModel(cars[0]) then Stream([], Some(MissingKey(CarModel)))
    else Prepend([cars[0]], Counted(cars[1..]))
  }

  /** Counting yields a prefix of the records; it is all of them exactly when
      no record lacks a `car_model`, and otherwise it stops just before the
      first one that does. */
  lemma {:induction false} CountedPrefix(cars: seq<Record>)
    ensures var s := Counted(cars);
            && |s.items| <= |cars| && s.items == cars[..|s.items|]
            && (s.failure.None? <==> |s.items| == |cars|)
            && (s.failure.Some? ==> s.failure == Some(MissingKey(CarModel)) && !HasModel(cars[|s.items|]))
    decreases |cars|
  {
    if cars != [] && HasModel(cars[0]) {
      CountedPrefix(cars[1..]);
      var t := Counted(cars[1..]);
      assert [cars[0]] + cars[1..][..|t.items|] == cars[..|t.items| + 1];
    }
  }

  /** Counting from record `i` on: record `i` is yielded, then the rest,
      unless it has no `car_model`. */
  lemma CountedUnfold(cars: seq<Record>, i: nat)
    requires i < |cars|
    ensures Counted(cars[i..])
         == if !HasModel(cars[i]) then Stream([], Some(MissingKey(CarModel)))
            else Prepend([cars[i]], Counted(cars[i + 1..]))
  {
    assert cars[i..][1..] == cars[i + 1..];
  }

  /** What the delimited-text reader yields for a whole file. A file without a
      first line stops with an error before anything is yielded. */
  function CsvRecords(lines: seq<string>): (s: Stream<Record>)
    ensures AllHaveModel(s.items)
    ensures lines == [] ==> s == Stream([], Some(NoHeader))
  {
    if lines == [] then Stream([], Some(NoHeader))
    else Counted(CsvRows(Split(Strip(lines[0]), ','), lines[1..]))
  }

  /** The delimited reader yields one record per line after the header,
      blank lines included (`split` never returns an empty list, so the
      reader's emptiness guard never skips a line), and stops early exactly
      at the first line whose record has no `car_model`. */
  lemma CsvRecordsRows(lines: seq<string>)
    requires lines != []
    ensures var s := CsvRecords(lines);
            var header := Split(Strip(lines[0]), ',');
            && |s.items| <= |lines| - 1
            && (forall k :: 0 <= k < |s.items| ==> s.items[k] == CsvRow(header, lines[k + 1]))
            && (s.failure.None? <==> |s.items| == |lines| - 1)
            && (s.failure.Some? ==> s.failure == Some(MissingKey(CarModel))
                                    && !HasModel(CsvRow(header, lines[|s.items| + 1])))
  {
    var header := Split(Strip(lines[0]), ',');
    var rows := CsvRows(header, lines[1..]);
    CountedPrefix(rows);
    var s := Counted(rows);
    forall k | 0 <= k < |s.items| ensures s.items[k] == CsvRow(header, lines[k + 1]) {
      assert s.items[k] == rows[k];
      assert lines[1..][k] == lines[k + 1];
    }
    if s.failure.Some? {
      assert lines[1..][|s.items|] == lines[|s.items| + 1];
    }
  }

  /** A blank data line gives the record that maps the first header name to
      the empty string. */
  lemma CsvBlankLine(header: seq<string>, line: string)
    requires header != []
    requires forall k :: 0 <= k < |line| ==> IsSpace(line[k])
    ensures CsvRow(header, line) == map[header[0] := ""]
  {
    StripBlank(line);
    assert Split(Strip(line), ',') == [""];
    var r := CsvRow(header, line);
    ZipValue(header, [""], 0);
    assert r.Keys == {header[0]};
  }

  // ---------------------------------------------------------------------
  // Structured records, one per line

  /** The stripped lines that are not blank, in order. */
  function NonBlank(lines: seq<string>): (texts: seq<string>)
    ensures |texts| <= |lines|
  {
    if lines == [] then []
    else if Strip(lines[0]) == [] then NonBlank(lines[1..])
    else [Strip(lines[0])] + NonBlank(lines[1..])
  }

  /** A text that is non-empty and neither starts nor ends with whitespace. */
  predicate Stripped(text: string) {
    text != [] && !IsSpace(text[0]) && !IsSpace(text[|text| - 1])
  }

  /** Every text kept is non-empty and already stripped. */
  lemma {:induction false} NonBlankStripped(lines: seq<string>)
    ensures forall k :: 0 <= k < |NonBlank(lines)| ==> Stripped(NonBlank(lines)[k])
    decreases |lines|
  {
    if lines != [] {
      NonBlankStripped(lines[1..]);
      var t := NonBlank(lines[1..]);
      var h := Strip(lines[0]);
      if h != [] {
        assert NonBlank(lines) == [h] + t;
        forall k | 0 <= k < |[h] + t| ensures Stripped(([h] + t)[k]) {
          if k == 0 { assert ([h] + t)[k] == h; } else { assert ([h] + t)[k] == t[k - 1]; }
        }
      } else {
        assert NonBlank(lines) == t;
      }
    }
  }

  /** What the structured-record reader yields for a file: blank lines are
      skipped, every other line is decoded by `decode` (the JSON decoder, not
      modelled) and must give a record with a `car_model`. */
  function JsonScan(lines: seq<string>, decode: string -> Option<Record>): (s: Stream<Record>)
    ensures AllHaveModel(s.items)
    decreases |lines|
  {
    if lines == [] then Stream([], None)
    else
      var line := Strip(lines[0]);
      if line == [] then JsonScan(lines[1..], decode)
      else match decode(line)
        case None => Stream([], Some(Undecodable(line)))
        case Some(car) =>
          if !HasModel(car) then Stream([], Some(MissingKey(CarModel)))
          else Prepend([car], JsonScan(lines[1..], decode))
  }

  /** The reader at line `i`: a blank line is skipped, any other one is
      decoded and yielded, or ends the stream. */
  lemma JsonScanUnfold(lines: seq<string>, i: nat, decode: string -> Option<Record>)
    requires i < |lines|
    ensures var line := Strip(lines[i]);
            var rest := JsonScan(lines[i + 1..], decode);
            JsonScan(lines[i..], decode)
              == if line == [] then rest
                 else if decode(line).None? then Stream([], Some(Undecodable(line)))
                 else if !HasModel(decode(line).value) then Stream([], Some(MissingKey(CarModel)))
                 else Prepend([decode(line).value], rest)
  {
    assert lines[i..][1..] == lines[i + 1..];
  }

  /** Record `k` of `s` is the decoding of text `k`; `s` stops early exactly
      when some text does not decode to a record with a `car_model`, and then
      at the first such text, with the error it raises. */
  ghost predicate DecodesTexts(s: Stream<Record>, texts: seq<string>, decode: string -> Option<Record>) {
    && |s.items| <= |texts|
    && (forall k :: 0 <= k < |s.items| ==> decode(texts[k]) == Some(s.items[k]))
    && (s.failure.None? <==> |s.items| == |texts|)
    && (s.failure.Some? ==>
          var t := texts[|s.items|];
          if decode(t).None? then s.failure == Some(Undecodable(t))
          else !HasModel(decode(t).value) && s.failure == Some(MissingKey(CarModel)))
  }

  /** A text that decodes to a record with a `car_model`, put in front. */
  lemma DecodesTextsCons(text: string, t: Stream<Record>, texts: seq<string>, decode: string -> Option<Record>)
    requires DecodesTexts(t, texts, decode)
    requires decode(text).Some? && HasModel(decode(text).value)
    ensures DecodesTexts(Prepend([decode(text).value], t), [text] + texts, decode)
  {
    var s := Prepend([decode(text).value], t);
    assert forall k :: 1 <= k < |s.items| ==> s.items[k] == t.items[k - 1] && ([text] + texts)[k] == texts[k - 1];
    if s.failure.Some? {
      assert ([text] + texts)[|s.items|] == texts[|t.items|];
    }
  }

  /** Record `k` of the structured reader is the decoding of the `k`-th
      non-blank stripped line; the reader stops early exactly at the first
      such line that does not decode to a record with a `car_model`. */
  lemma {:induction false} JsonScanLines(lines: seq<string>, decode: string -> Option<Record>)
    ensures DecodesTexts(JsonScan(lines, decode), NonBlank(lines), decode)
    decreases |lines|
  {
    if lines != [] {
      JsonScanLines(lines[1..], decode);
      var line := Strip(lines[0]);
      if line == [] {
        assert JsonScan(lines, decode) == JsonScan(lines[1..], decode);
        assert NonBlank(lines) == NonBlank(lines[1..]);
      } else if decode(line).None? || !HasModel(decode(line).value) {
        assert NonBlank(lines) == [line] + NonBlank(lines[1..]);
      } else {
        assert NonBlank(lines) == [line] + NonBlank(lines[1..]);
        DecodesTextsCons(line, JsonScan(lines[1..], decode), NonBlank(lines[1..]), decode);
      }
    }
  }

  // ---------------------------------------------------------------------
  // Tag-per-line markup

  /** `line.split('>')[1].split('<')[0]`; a line without '>' has no second
      piece and raises IndexError. */
  function ExtractXmlValue(line: string): (r: Result<string>)
    ensures r.Err? <==> '>' !in line
    ensures r.Err? ==> r.error == NoTagEnd(line)
    ensures r.Ok? ==> '<' !in r.value && '>' !in r.value
  {
    var parts := Split(line, '>');
    if |parts| < 2 then Err(NoTagEnd(line))
    else
      var value := Split(parts[1], '<')[0];
      assert '>' !in value by {
        assert value == parts[1][..|value|];
      }
      Ok(value)
  }

  /** The first character of `s` in `a + b` is the first character in `a` of
      the prefix that ends at the first character in `b`. */
  lemma FindWithin(s: string, a: set<char>, b: set<char>)
    ensures Find(s, a + b) == Find(s[..Find(s, b)], a)
  {
    var n := Find(s, b);
    var k := Find(s[..n], a);
    assert forall j :: 0 <= j < k ==> s[j] == s[..n][j];
    assert k < n ==> s[k] == s[..n][k];
  }

  /** Extraction fails exactly on a line without '>'; otherwise the value
      is the text after the first '>' up to the next '<' or '>', or up to the
      end of the line when neither follows. */
  lemma ExtractXmlValueText(line: string)
    ensures '>' !in line ==> ExtractXmlValue(line) == Err(NoTagEnd(line))
    ensures '>' in line ==>
              var rest := line[Find(line, {'>'}) + 1..];
              ExtractXmlValue(line) == Ok(rest[..Find(rest, {'<', '>'})])
  {
    if '>' !in line {
      SplitNoSep(line, '>');
    } else {
      var rest := line[Find(line, {'>'}) + 1..];
      SplitAtFirst(line, '>');
      SplitAtFirst(rest, '>');
      ValueCut(rest, Split(line, '>')[1]);
    }
  }

  /** Cutting at the first '>' and then at the first '<' cuts at the first
      of either. */
  lemma ValueCut(rest: string, piece: string)
    requires piece == rest[..Find(rest, {'>'})]
    ensures Split(piece, '<')[0] == rest[..Find(rest, {'<', '>'})]
  {
    SplitAtFirst(piece, '<');
    var c := Find(piece, {'<'});
    FindWithin(rest, {'<'}, {'>'});
    assert {'<'} + {'>'} == {'<', '>'};
    assert piece[..c] == rest[..c];
  }

  /** The field a stripped markup line sets, tested by prefix in the reader's
      order; a `<year...` line sets `year_of_manufacture`. */
  function XmlField(line: string): (f: Option<string>)
    ensures f.Some? ==> f.value in {CarModel, YearOfManufacture, Price, Fuel} && "<" <= line
  {
    if "<car_model" <= line then Some(CarModel)
    else if "<year" <= line then Some(YearOfManufacture)
    else if "<price" <= line then Some(Price)
    else if "<fuel" <= line then Some(Fuel)
    else None
  }

  /** A stripped line that closes a record. */
  predicate IsRowEnd(line: string) {
    "</row" <= line
  }

  predicate NoRowEnd(block: seq<string>) {
    forall i :: 0 <= i < |block| ==> !IsRowEnd(Strip(block[i]))
  }

  /** What the markup reader yields for the lines that remain, given the
      fields `car` collected since the last closing line. */
  function XmlScan(lines: seq<string>, car: Record): (s: Stream<Record>)
    ensures AllHaveModel(s.items)
    ensures car.Keys <= {CarModel, YearOfManufacture, Price, Fuel} ==>
              forall i :: 0 <= i < |s.items| ==> s.items[i].Keys <= {CarModel, YearOfManufacture, Price, Fuel}
    decreases |lines|
  {
    if lines == [] then Stream([], None)
    else
      var line := Strip(lines[0]);
      match XmlField(line)
      case Some(key) =>
        (match ExtractXmlValue(line)
         case Err(e) => Stream([], Some(e))
         case Ok(value) => XmlScan(lines[1..], car[key := value]))
      case None =>
        if !IsRowEnd(line) then XmlScan(lines[1..], car)
        else if !HasModel(car) then Stream([], Some(MissingKey(CarModel)))
        else Prepend([car], XmlScan(lines[1..], map[]))
  }

  /** The markup reader at a tag line `i`: the line's value is stored under
      its field, unless the line has no '>'. */
  lemma XmlScanField(lines: seq<string>, i: nat, car: Record)
    requires i < |lines| && XmlField(Strip(lines[i])).Some?
    ensures var line := Strip(lines[i]);
            var value := ExtractXmlValue(line);
            XmlScan(lines[i..], car)
              == if value.Err? then Stream([], Some(value.error))
                 else XmlScan(lines[i + 1..], car[XmlField(line).value := value.value])
  {
    assert lines[i..][1..] == lines[i + 1..];
  }

  /** The markup reader at a closing line `i`: `car` is yielded and a new
      record starts, unless `car` has no `car_model`. */
  lemma XmlScanRowEnd(lines: seq<string>, i: nat, car: Record)
    requires i < |lines| && XmlField(Strip(lines[i])).None? && IsRowEnd(Strip(lines[i]))
    ensures XmlScan(lines[i..], car)
         == if !HasModel(car) then Stream([], Some(MissingKey(CarModel)))
            else Prepend([car], XmlScan(lines[i + 1..], map[]))
  {
    assert lines[i..][1..] == lines[i + 1..];
  }

  /** The markup reader skips every other line. */
  lemma XmlScanSkip(lines: seq<string>, i: nat, car: Record)
    requires i < |lines| && XmlField(Strip(lines[i])).None? && !IsRowEnd(Strip(lines[i]))
    ensures XmlScan(lines[i..], car) == XmlScan(lines[i + 1..], car)
  {
    assert lines[i..][1..] == lines[i + 1..];
  }

  /** The fields a run of lines without a closing line sets on top of `car`:
      each tag line overwrites its field and every other line is ignored. */
  function Accumulate(car: Record, block: seq<string>): (r: Result<Record>)
    ensures r.Ok? ==> car.Keys <= r.value.Keys <= car.Keys + {CarModel, YearOfManufacture, Price, Fuel}
    decreases |block|
  {
    if block == [] then Ok(car)
    else
      var line := Strip(block[0]);
      match XmlField(line)
      case Some(key) =>
        (match ExtractXmlValue(line)
         case Err(e) => Err(e)
         case Ok(value) => Accumulate(car[key := value], block[1..]))
      case None => Accumulate(car, block[1..])
  }

  /** A later tag line for a field overrides every earlier one. */
  lemma {:induction false} AccumulateLastWins(car: Record, block: seq<string>, line: string)
    requires Accumulate(car, block).Ok?
    requires XmlField(Strip(line)).Some? && ExtractXmlValue(Strip(line)).Ok?
    ensures Accumulate(car, block + [line])
         == Ok(Accumulate(car, block).value[XmlField(Strip(line)).value := ExtractXmlValue(Strip(line)).value])
    decreases |block|
  {
    if block == [] {
      assert block + [line] == [line];
    } else {
      AppendTail(block, line);
      var l := Strip(block[0]);
      match XmlField(l)
      case Some(key) =>
        var value := ExtractXmlValue(l).value;
        assert Accumulate(car, block) == Accumulate(car[key := value], block[1..]);
        assert Accumulate(car, block + [line]) == Accumulate(car[key := value], block[1..] + [line]);
        AccumulateLastWins(car[key := value], block[1..], line);
      case None =>
        assert Accumulate(car, block + [line]) == Accumulate(car, block[1..] + [line]);
        AccumulateLastWins(car, block[1..], line);
    }
  }

  /** Lines before the next closing line only collect fields. */
  lemma {:induction false} XmlScanBlock(block: seq<string>, rest: seq<string>, car: Record)
    requires NoRowEnd(block)
    ensures var acc := Accumulate(car, block);
            XmlScan(block + rest, car) == if acc.Err? then Stream([], Some(acc.error)) else XmlScan(rest, acc.value)
    decreases |block|
  {
    if block == [] {
      assert block + rest == rest;
    } else {
      assert (block + rest)[0] == block[0] && (block + rest)[1..] == block[1..] + rest;
      assert NoRowEnd(block[1..]) by {
        assert forall i :: 0 <= i < |block[1..]| ==> block[1..][i] == block[i + 1];
      }
      var l := Strip(block[0]);
      match XmlField(l)
      case Some(key) =>
        if ExtractXmlValue(l).Ok? {
          XmlScanBlock(block[1..], rest, car[key := ExtractXmlValue(l).value]);
        }
      case None => XmlScanBlock(block[1..], rest, car);
    }
  }

  /** At a closing line the reader yields exactly the fields set since the
      previous closing line (or the start of the file), then starts over from
      an empty record. */
  lemma XmlRecordPerRow(block: seq<string>, closer: string, rest: seq<string>)
    requires NoRowEnd(block) && IsRowEnd(Strip(closer))
    ensures var acc := Accumulate(map[], block);
            XmlScan(block + [closer] + rest, map[])
              == if acc.Err? then Stream([], Some(acc.error))
                 else if HasModel(acc.value) then Prepend([acc.value], XmlScan(rest, map[]))
                 else Stream([], Some(MissingKey(CarModel)))
  {
    assert block + [closer] + rest == block + ([closer] + rest);
    XmlScanBlock(block, [closer] + rest, map[]);
    var acc := Accumulate(map[], block);
    if acc.Ok? {
      XmlScanClose(closer, rest, acc.value);
    }
  }

  /** A closing line yields the collected record, when it has a `car_model`,
      and resets the collection. */
  lemma XmlScanClose(closer: string, rest: seq<string>, car: Record)
    requires IsRowEnd(Strip(closer))
    ensures XmlScan([closer] + rest, car)
         == if HasModel(car) then Prepend([car], XmlScan(rest, map[])) else Stream([], Some(MissingKey(CarModel)))
  {
    var l := Strip(closer);
    assert l[1] == "</row"[1];
    assert XmlField(l).None?;
    assert ([closer] + rest)[0] == closer && ([closer] + rest)[1..] == rest;
  }

  /** Fields after the last closing line are never yielded. */
  lemma XmlTrailingFields(block: seq<string>, car: Record)
    requires NoRowEnd(block)
    ensures XmlScan(block, car).items == []
  {
    XmlScanBlock(block, [], car);
    assert block + [] == block;
  }

  // ---------------------------------------------------------------------
  // The loader object

  /** Holds the frequency table that every reader updates. */
  class DataLoader {
    var carModelCounts: Counts

    constructor ()
      ensures carModelCounts == map[]
    {
      carModelCounts := map[];
    }

    /** Counts one more occurrence of the record's model; a record without a
        `car_model` raises KeyError and leaves the table as it was. */
    method CountCar(car: Record) returns (failure: Option<Error>)
      modifies this
      ensures failure == if HasModel(car) then None else Some(MissingKey(CarModel))
      ensures carModelCounts == if HasModel(car) then Bump(old(carModelCounts), car[CarModel])
                                else old(carModelCounts)
    {
      if CarModel !in car {
        return Some(MissingKey(CarModel));
      }
      carModelCounts := carModelCounts[car[CarModel] := Get(carModelCounts, car[CarModel]) + 1];
      return None;
    }

    /** The delimited-text reader: counts each record before yielding it. */
    method ReadCsv(lines: seq<string>) returns (s: Stream<Record>)
      modifies this
      ensures s == CsvRecords(lines)
      ensures carModelCounts == Tally(old(carModelCounts), s.items)
    {
      if lines == [] {
        return Stream([], Some(NoHeader));
      }
      var header := Split(Strip(lines[0]), ',');
      ghost var rows := CsvRows(header, lines[1..]);
      ghost var whole := Counted(rows);
      assert whole == CsvRecords(lines);
      var emitted: seq<Record> := [];
      var i := 1;
      while i < |lines|
        invariant 1 <= i <= |lines|
        invariant Prepend(emitted, Counted(rows[i - 1..])) == whole
        invariant AllHaveModel(emitted)
        invariant carModelCounts == Tally(old(carModelCounts), emitted)
      {
        // `split` never returns an empty list, so `read_csv`'s `if not line`
        // guard (main.py:30) never skips a line.
        assert Split(Strip(lines[i]), ',') != [];
        var car := CsvRow(header, lines[i]);
        assert car == rows[i - 1];
        CountedUnfold(rows, i - 1);
        var failure := CountCar(car);
        if failure.Some? {
          return Stream(emitted, failure);
        }
        PrependPrepend(emitted, [car], Counted(rows[i..]));
        TallyPush(old(carModelCounts), emitted, car);
        emitted := emitted + [car];
        i := i + 1;
      }
      assert rows[i - 1..] == [];
      return Stream(emitted, None);
    }

    /** The structured-record reader: skips blank lines, decodes the others,
        and counts each record before yielding it. */
    method ReadJson(lines: seq<string>, decode: string -> Option<Record>) returns (s: Stream<Record>)
      modifies this
      ensures s == JsonScan(lines, decode)
      ensures carModelCounts == Tally(old(carModelCounts), s.items)
    {
      var emitted: seq<Record> := [];
      var i := 0;
      while i < |lines|
        invariant 0 <= i <= |lines|
        invariant Prepend(emitted, JsonScan(lines[i..], decode)) == JsonScan(lines, decode)
        invariant AllHaveModel(emitted)
        invariant carModelCounts == Tally(old(carModelCounts), emitted)
      {
        JsonScanUnfold(lines, i, decode);
        var line := Strip(lines[i]);
        if line != [] {
          var car := decode(line);
          if car.None? {
            return Stream(emitted, Some(Undecodable(line)));
          }
          var failure := CountCar(car.value);
          if failure.Some? {
            return Stream(emitted, failure);
          }
          PrependPrepend(emitted, [car.value], JsonScan(lines[i + 1..], decode));
          TallyPush(old(carModelCounts), emitted, car.value);
          emitted := emitted + [car.value];
        }
        i := i + 1;
      }
      return Stream(emitted, None);
    }

    /** The markup reader: collects tag lines into a record, and at each
        closing line counts the record, yields it and starts a new one. */
    method ReadXml(lines: seq<string>) returns (s: Stream<Record>)
      modifies this
      ensures s == XmlScan(lines, map[])
      ensures carModelCounts == Tally(old(carModelCounts), s.items)
    {
      var car: Record := map[];
      var emitted: seq<Record> := [];
      ghost var whole := XmlScan(lines, map[]);
      assert lines[0..] == lines;
      var i := 0;
      while i < |lines|
        invariant 0 <= i <= |lines|
        invariant Prepend(emitted, XmlScan(lines[i..], car)) == whole
        invariant AllHaveModel(emitted)
        invariant carModelCounts == Tally(old(carModelCounts), emitted)
      {
        var line := Strip(lines[i]);
        var field := XmlField(line);
        if field.Some? {
          XmlScanField(lines, i, car);
          var value := ExtractXmlValue(line);
          if value.Err? {
            return Stream(emitted, Some(value.error));
          }
          car := car[field.value := value.value];
        } else if IsRowEnd(line) {
          XmlScanRowEnd(lines, i, car);
          var failure := CountCar(car);
          if failure.Some? {
            return Stream(emitted, failure);
          }
          PrependPrepend(emitted, [car], XmlScan(lines[i + 1..], map[]));
          TallyPush(old(carModelCounts), emitted, car);
          emitted := emitted + [car];
          car := map[];
        } else {
          XmlScanSkip(lines, i, car);
        }
        i := i + 1;
      }
      assert lines[i..] == [];
      return Stream(emitted, None);
    }
  }
}
