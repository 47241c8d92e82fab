/** The data of the grouped bar chart: per country a colour and three
    percentages, the `sum` that `ngOnInit` adds, the bars that
    `createChart` draws from it, and the fill and entry delay of a bar. */
module MultiBarData {
  import opened Wrappers
  import opened JsObject
  import opened Seqs

  /** A country's `values`, with its keys written in this order. */
  datatype Values = Values(passes: real, shots: real, occasions: real)

  /** One entry of `dataSets`: `sum` is absent until `ngOnInit` adds it. */
  datatype CountryData = CountryData(color: string, values: Values, sum: Option<real>)

  type DataSets = Entries<CountryData>

  /** The keys of every `values` object, in order; `legendData` has the
      same keys in the same order. */
  const Types: seq<string> := ["passes", "shots", "occasions"]

  /** `Object.entries(values)`. */
  function ValueEntries(v: Values): Entries<real> {
    [("passes", v.passes), ("shots", v.shots), ("occasions", v.occasions)]
  }

  /** The data the component is created with. */
  const InitialDataSets: DataSets := [
    ("Morocco", CountryData("#e80284", Values(78.6, 27.9, 60.0), None)),
    ("Argentina", CountryData("#03a0c7", Values(84.6, 43.2, 60.0), None)),
    ("France", CountryData("#03a0c7", Values(82.6, 33.0, 55.2), None)),
    ("Croatia", CountryData("#03a0c7", Values(83.3, 32.9, 57.1), None)),
    ("Senegal", CountryData("#DB8500", Values(77.7, 23.5, 55.6), None)),
    ("Tunisia", CountryData("#DB8500", Values(73.8, 25.0, 50.0), None)),
    ("Ghana", CountryData("#DB8500", Values(77.4, 36.0, 55.6), None))
  ]

  // ---------------------------------------------------------------
  // ngOnInit

  /** One entry of the `map`: the country's data spread, then `sum`
      written over whatever was there. */
  function WithSum(e: (string, CountryData)): (string, CountryData) {
    var v := e.1.values;
    (e.0, e.1.(sum := Some(v.passes + v.shots + v.occasions)))
  }

  /** `ngOnInit`: the entries mapped with their sum, then gathered back into
      a fresh object by `reduce`. */
  function Enrich(m: DataSets): DataSets {
    Assign([], Map(m, WithSum))
  }

  // ---------------------------------------------------------------
  // createChart

  /** The datum of one `.bar-g` group and of the rect inside it; `kind` is
      its `type`, the key of `values` it shows. */
  datatype Bar = Bar(kind: string, value: real, country: string)

  /** The bars of one country: one per key of its `values`, in key order. */
  function CountryBars(country: string, data: CountryData): seq<Bar> {
    Map(ValueEntries(data.values), (e: (string, real)) => Bar(e.0, e.1, country))
  }

  /** Every `.bar-g` group, in document order: the countries in the order
      of `Object.entries(dataSets)`, each with its bars. */
  function Bars(m: DataSets): (bars: seq<Bar>)
    ensures |bars| == 3 * |m|
  {
    if m == [] then [] else CountryBars(m[0].0, m[0].1) + Bars(m[1..])
  }

  /** The fill of a bar's rect: the country colour for passes, the
      country's dotted pattern for shots, its striped pattern for
      occasions, and the country colour for any other type.
      `COUNTRY_COLOR_SCALE` is not part of this model and is the parameter
      `colorOf`. */
  function Fill(b: Bar, colorOf: string -> string): string {
    match b.kind
    case "passes" => colorOf(b.country)
    case "shots" => "url(#dotted-" + b.country + ")"
    case "occasions" => "url(#striped-" + b.country + ")"
    case _ => colorOf(b.country)
  }

  /** The ids of the patterns `createChart` defines: a dotted and a striped
      one per country, then the two legend patterns. */
  function PatternIds(m: DataSets): seq<string> {
    if m == [] then ["dotted-pattern", "striped-pattern"]
    else ["dotted-" + m[0].0, "striped-" + m[0].0] + PatternIds(m[1..])
  }

  /** The delay, in milliseconds, before a bar grows in. */
  function Delay(kind: string): int {
    match kind
    case "passes" => 0
    case "shots" => 200
    case "occasions" => 400
    case _ => 400
  }

  // ---------------------------------------------------------------
  // Properties

  lemma InitialUnique()
    ensures UniqueKeys(InitialDataSets)
  {
  }

  /** On an object (distinct keys), `ngOnInit` keeps the countries in their
      order, each with its colour and values, and gives each the sum of its
      three values. */
  lemma EnrichSpec(m: DataSets)
    requires UniqueKeys(m)
    ensures |Enrich(m)| == |m| && Keys(Enrich(m)) == Keys(m)
    ensures forall i :: 0 <= i < |m| ==>
              && Enrich(m)[i].0 == m[i].0
              && Enrich(m)[i].1.color == m[i].1.color
              && Enrich(m)[i].1.values == m[i].1.values
              && Enrich(m)[i].1.sum == Some(m[i].1.values.passes + m[i].1.values.shots + m[i].1.values.occasions)
  {
    var es := Map(m, WithSum);
    AssignUnique(es);
    KeysAt(m);
    KeysAt(es);
  }

  /** Running `ngOnInit` again changes nothing: the sum is recomputed from
      the same values. */
  lemma EnrichIdempotent(m: DataSets)
    requires UniqueKeys(m)
    ensures Enrich(Enrich(m)) == Enrich(m)
  {
    EnrichSpec(m);
    var e := Enrich(m);
    assert UniqueKeys(e);
    EnrichSpec(e);
  }

  /** Bar `3 * i + k` is the `k`-th key of country `i`, with that key's
      value and the country's name. */
  lemma {:induction false} BarsAt(m: DataSets, i: int, k: int)
    requires 0 <= i < |m| && 0 <= k < 3
    ensures Bars(m)[3 * i + k] == Bar(Types[k], ValueEntries(m[i].1.values)[k].1, m[i].0)
  {
    var head := CountryBars(m[0].0, m[0].1);
    assert Bars(m) == head + Bars(m[1..]);
    if i == 0 {
      assert Bars(m)[k] == head[k];
    } else {
      BarsAt(m[1..], i - 1, k);
      assert Bars(m)[3 * i + k] == Bars(m[1..])[3 * (i - 1) + k];
    }
  }

  /** With distinct countries, no two bars share both country and type:
      the pair identifies the bar. */
  lemma BarsDistinct(m: DataSets, a: int, b: int)
    requires UniqueKeys(m)
    requires 0 <= a < |Bars(m)| && 0 <= b < |Bars(m)| && a != b
    ensures Bars(m)[a].country != Bars(m)[b].country || Bars(m)[a].kind != Bars(m)[b].kind
  {
    var ia, ka := a / 3, a % 3;
    var ib, kb := b / 3, b % 3;
    assert a == 3 * ia + ka && b == 3 * ib + kb;
    BarsAt(m, ia, ka);
    BarsAt(m, ib, kb);
    if ia == ib {
      assert ka != kb;
    } else {
      assert m[ia].0 != m[ib].0;
    }
  }

  /** Every pattern a bar's fill refers to is one `createChart` defines. */
  lemma FillDefined(m: DataSets, a: int, colorOf: string -> string)
    requires 0 <= a < |Bars(m)|
    ensures Bars(m)[a].kind in ["shots", "occasions"] ==>
              exists id :: id in PatternIds(m) && Fill(Bars(m)[a], colorOf) == "url(#" + id + ")"
    ensures Bars(m)[a].kind !in ["shots", "occasions"] ==> Fill(Bars(m)[a], colorOf) == colorOf(Bars(m)[a].country)
  {
    var i, k := a / 3, a % 3;
    assert a == 3 * i + k;
    BarsAt(m, i, k);
    PatternIdsHas(m, i);
    var b := Bars(m)[a];
    assert b.country == m[i].0;
    FillPattern(b, colorOf);
  }

  /** The fill of a shots or occasions bar names the country's pattern. */
  lemma FillPattern(b: Bar, colorOf: string -> string)
    ensures b.kind == "shots" ==> Fill(b, colorOf) == "url(#" + ("dotted-" + b.country) + ")"
    ensures b.kind == "occasions" ==> Fill(b, colorOf) == "url(#" + ("striped-" + b.country) + ")"
    ensures b.kind !in ["shots", "occasions"] ==> Fill(b, colorOf) == colorOf(b.country)
  {
    var c := b.country;
    assert "url(#dotted-" + c + ")" == "url(#" + ("dotted-" + c) + ")";
    assert "url(#striped-" + c + ")" == "url(#" + ("striped-" + c) + ")";
  }

  lemma {:induction false} PatternIdsHas(m: DataSets, i: int)
    requires 0 <= i < |m|
    ensures "dotted-" + m[i].0 in PatternIds(m) && "striped-" + m[i].0 in PatternIds(m)
  {
    if i > 0 {
      PatternIdsHas(m[1..], i - 1);
    }
  }

  /** The bars of a country grow in one type after the other, 200 ms apart,
      in the order of the keys; any other type waits as long as the last. */
  lemma DelaySpec(kind: string)
    ensures forall k :: 0 <= k < |Types| ==> Delay(Types[k]) == 200 * k
    ensures kind !in Types ==> Delay(kind) == Delay(Types[|Types| - 1])
    ensures 0 <= Delay(kind) <= 400
  {
  }
}
