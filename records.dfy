/** Vehicle-sale records, the errors that abort a run, the record streams the
    readers produce, and the per-model frequency table. */
module Records {

  /** A record as the readers build it: a flat mapping from field name to text. */
  type Record = map<string, string>

  const CarModel: string := "car_model"
  const YearOfManufacture: string := "year_of_manufacture"
  const Price: string := "price"
  const Fuel: string := "fuel"

  datatype Option<T> = None | Some(value: T)

  /** The exceptions that end a run. */
  datatype Error =
    | MissingKey(key: string)    // KeyError on a dictionary lookup
    | NoHeader                   // RuntimeError (Python 3.7 and later): a delimited file without a first line
    | NoTagEnd(line: string)     // IndexError: a markup tag line without '>'
    | Undecodable(line: string)  // a structured line that does not decode to a record
    | BadPrice(price: string)    // a price that does not parse as a number

  datatype Result<T> = Ok(value: T) | Err(error: Error)

  /** What a generator produces when it is iterated to the end: the items it
      yielded, then the exception that stopped it, if any. */
  datatype Stream<T> = Stream(items: seq<T>, failure: Option<Error>)

  /** `xs` yielded first, then whatever `s` yields. */
  function Prepend<T>(xs: seq<T>, s: Stream<T>): (r: Stream<T>)
    ensures |r.items| == |xs| + |s.items| && r.items[..|xs|] == xs && r.items[|xs|..] == s.items && r.failure == s.failure
  {
    Stream(xs + s.items, s.failure)
  }

  /** Prepending twice is prepending the concatenation. */
  lemma PrependPrepend<T>(xs: seq<T>, ys: seq<T>, s: Stream<T>)
    ensures Prepend(xs, Prepend(ys, s)) == Prepend(xs + ys, s)
  {
    assert xs + (ys + s.items) == (xs + ys) + s.items;
  }

  /** Appending one element keeps the head, and the tail gains that element. */
  lemma AppendTail<T>(xs: seq<T>, x: T)
    requires xs != []
    ensures (xs + [x])[0] == xs[0] && (xs + [x])[1..] == xs[1..] + [x]
  {
  }

  predicate HasModel(car: Record) {
    CarModel in car
  }

  predicate AllHaveModel(cars: seq<Record>) {
    forall i :: 0 <= i < |cars| ==> HasModel(cars[i])
  }

  // ---------------------------------------------------------------------
  // The frequency table

  /** Counts per model name, as the model appears in the source. */
  type Counts = map<string, nat>

  /** `counts.get(model, 0)` */
  function Get(counts: Counts, model: string): nat {
    if model in counts then counts[model] else 0
  }

  /** One more occurrence of `model`; an unseen model starts from 0 and every
      other model keeps its count. */
  function Bump(counts: Counts, model: string): (r: Counts)
    ensures r.Keys == counts.Keys + {model}
    ensures Get(r, model) == Get(counts, model) + 1
    ensures forall m :: m != model ==> Get(r, m) == Get(counts, m)
  {
    counts[model := Get(counts, model) + 1]
  }

  /** The number of records whose model is `model`. */
  function Occurrences(cars: seq<Record>, model: string): nat {
    if cars == [] then 0
    else
      var last := cars[|cars| - 1];
      Occurrences(cars[..|cars| - 1], model) + (if HasModel(last) && last[CarModel] == model then 1 else 0)
  }

  /** The set of models that occur in `cars`. */
  function Models(cars: seq<Record>): set<string> {
    set i | 0 <= i < |cars| && HasModel(cars[i]) :: cars[i][CarModel]
  }

  /** The table after bumping the model of every record of `cars`, in order:
      each model's count grows by its number of occurrences, and the table
      gains exactly the models that occur. */
  function Tally(counts: Counts, cars: seq<Record>): (r: Counts)
    requires AllHaveModel(cars)
    ensures r.Keys == counts.Keys + Models(cars)
    ensures forall m :: Get(r, m) == Get(counts, m) + Occurrences(cars, m)
  {
    if cars == [] then counts
    else
      var init := cars[..|cars| - 1];
      assert Models(cars) == Models(init) + {cars[|cars| - 1][CarModel]} by {
        assert forall i :: 0 <= i < |init| ==> init[i] == cars[i];
      }
      Bump(Tally(counts, init), cars[|cars| - 1][CarModel])
  }

  /** Occurrences add up over a concatenation. */
  lemma {:induction false} OccurrencesAppend(a: seq<Record>, b: seq<Record>, model: string)
    ensures Occurrences(a + b, model) == Occurrences(a, model) + Occurrences(b, model)
    decreases |b|
  {
    if b == [] {
      assert a + b == a;
    } else {
      var init := b[..|b| - 1];
      assert (a + b)[..|a + b| - 1] == a + init;
      assert (a + b)[|a + b| - 1] == b[|b| - 1];
      OccurrencesAppend(a, init, model);
    }
  }

  /** Counting one more record bumps its model. */
  lemma TallyPush(counts: Counts, cars: seq<Record>, car: Record)
    requires AllHaveModel(cars) && HasModel(car)
    ensures AllHaveModel(cars + [car])
    ensures Tally(counts, cars + [car]) == Bump(Tally(counts, cars), car[CarModel])
  {
    assert (cars + [car])[..|cars|] == cars;
  }

  /** Counting two runs of records one after the other is counting their
      concatenation. */
  lemma {:induction false} TallyAppend(counts: Counts, a: seq<Record>, b: seq<Record>)
    requires AllHaveModel(a) && AllHaveModel(b)
    ensures AllHaveModel(a + b)
    ensures Tally(counts, a + b) == Tally(Tally(counts, a), b)
    decreases |b|
  {
    if b == [] {
      assert a + b == a;
    } else {
      var init, last := b[..|b| - 1], b[|b| - 1];
      assert b == init + [last];
      assert a + b == (a + init) + [last];
      TallyAppend(counts, a, init);
      TallyPush(counts, a + init, last);
      TallyPush(Tally(counts, a), init, last);
    }
  }

  /** The sum of all counts of a table. */
  ghost function Total(counts: Counts): nat
    decreases |counts|
  {
    if counts == map[] then 0
    else
      var m :| m in counts;
      assert (counts - {m}).Keys == counts.Keys - {m};
      counts[m] + Total(counts - {m})
  }

  /** The sum does not depend on which model is taken out first. */
  lemma {:induction false} TotalRemove(counts: Counts, model: string)
    requires model in counts
    ensures Total(counts) == counts[model] + Total(counts - {model})
    decreases |counts|
  {
    var m :| m in counts && Total(counts) == counts[m] + Total(counts - {m});
    if m != model {
      assert (counts - {m}).Keys == counts.Keys - {m};
      assert (counts - {model}).Keys == counts.Keys - {model};
      TotalRemove(counts - {m}, model);
      TotalRemove(counts - {model}, m);
      assert counts - {m} - {model} == counts - {model} - {m};
    }
  }

  /** Bumping a model adds one to the sum of all counts. */
  lemma BumpTotal(counts: Counts, model: string)
    ensures Total(Bump(counts, model)) == Total(counts) + 1
  {
    var r := Bump(counts, model);
    TotalRemove(r, model);
    if model in counts {
      TotalRemove(counts, model);
      assert r - {model} == counts - {model};
    } else {
      assert r - {model} == counts;
    }
  }

  /** After counting `cars`, the counts add up to one per record. */
  lemma {:induction false} TallyTotal(counts: Counts, cars: seq<Record>)
    requires AllHaveModel(cars)
    ensures Total(Tally(counts, cars)) == Total(counts) + |cars|
    decreases |cars|
  {
    if cars != [] {
      var init := cars[..|cars| - 1];
      TallyTotal(counts, init);
      BumpTotal(Tally(counts, init), cars[|cars| - 1][CarModel]);
    }
  }

  // ---------------------------------------------------------------------
  // dict(zip(keys, values))

  function Min(a: nat, b: nat): nat {
    if a < b then a else b
  }

  /** `dict(zip(keys, values))`: the keys are those of the first positions,
      up to the shorter of the two sequences. */
  function Zip(keys: seq<string>, values: seq<string>): (r: Record)
    ensures r.Keys == set i | 0 <= i < Min(|keys|, |values|) :: keys[i]
    decreases |keys|
  {
    var n := Min(|keys|, |values|);
    if n == 0 then map[]
    else
      var r := Zip(keys[..n - 1], values[..n - 1])[keys[n - 1] := values[n - 1]];
      assert forall i :: 0 <= i < n - 1 ==> keys[..n - 1][i] == keys[i];
      r
  }

  /** Each key of `dict(zip(keys, values))` holds the value paired with it,
      taken from its last position when the key repeats. */
  lemma {:induction false} ZipValue(keys: seq<string>, values: seq<string>, i: nat)
    requires i < Min(|keys|, |values|)
    requires forall j :: i < j < Min(|keys|, |values|) ==> keys[j] != keys[i]
    ensures Zip(keys, values)[keys[i]] == values[i]
    decreases |keys|
  {
    var n := Min(|keys|, |values|);
    if i < n - 1 {
      var ks, vs := keys[..n - 1], values[..n - 1];
      assert Min(|ks|, |vs|) == n - 1;
      assert ks[i] == keys[i] && vs[i] == values[i];
      forall j | i < j < n - 1 ensures ks[j] != ks[i] {
        assert ks[j] == keys[j];
      }
      ZipValue(ks, vs, i);
    }
  }
}
