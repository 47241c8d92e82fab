/** The back-to-back chart of goals scored and conceded per country: the
    records `ngOnInit` builds and sorts, the tick values and labels of the
    goal axis, and the emphasis the bar hover handlers put on the ticks,
    the legend and the bars. */
module BackToBack {
  import opened Wrappers
  import opened JsString
  import opened Seqs
  import opened StableSort
  import opened JsSet
  import opened Style

  /** One record of `data`; `conceded` is stored negated so that its bar
      grows to the left. */
  datatype CountryData = CountryData(country: string, scored: int, conceded: int, color: string)

  const Countries: seq<string> := ["Morroco", "Argentina", "France", "Croatia", "Senegal", "Tunisia", "Ghana"]
  const ScoredGoals: seq<int> := [6, 15, 16, 8, 5, 1, 5]
  const ConcededGoals: seq<int> := [5, 8, 8, 7, 7, 1, 7]
  const Colors: seq<string> := ["#e80284", "#4517EE", "#4517EE", "#4517EE", "#DB8500", "#DB8500", "#DB8500"]

  /** `countries.map((country, i) => ...)`: the four lists read at the same
      index, the conceded count negated. */
  function Zip(countries: seq<string>, scored: seq<int>, conceded: seq<int>, colors: seq<string>): (data: seq<CountryData>)
    requires |scored| == |countries| && |conceded| == |countries| && |colors| == |countries|
    ensures |data| == |countries|
  {
    seq(|countries|, i requires 0 <= i < |countries| => CountryData(countries[i], scored[i], -conceded[i], colors[i]))
  }

  /** The comparator's key: `scored + conceded`, the goal difference. */
  function GoalDifference(d: CountryData): real {
    (d.scored + d.conceded) as real
  }

  /** `data` after `ngOnInit`: the zipped records in non-increasing order of
      goal difference, equal differences in their original order. */
  function InitialData(): seq<CountryData> {
    SortDesc(Zip(Countries, ScoredGoals, ConcededGoals, Colors), GoalDifference)
  }

  /** `Array.from({length: 17}, (_, index) => index * 2 - 16)`. */
  function TickValues(): (ticks: seq<int>)
    ensures |ticks| == 17
  {
    seq(17, index => index * 2 - 16)
  }

  function Abs(n: int): nat {
    if n < 0 then -n else n
  }

  /** `tickFormat`: `Math.abs(d).toString()`. */
  function TickLabel(d: int): string {
    IntToString(Abs(d))
  }

  /** The number a bar's tooltip shows: `Math.abs(d.conceded)` on a
      conceded bar, `Math.abs(d.scored)` on a scored one. */
  datatype Side = Conceded | Scored

  function TooltipCount(d: CountryData, side: Side): nat {
    match side
    case Conceded => Abs(d.conceded)
    case Scored => Abs(d.scored)
  }

  // ---------------------------------------------------------------
  // Hover emphasis

  /** A `.tick` group: the goal axis's are bound to numbers, the country
      axis's to country names. */
  datatype Tick = Goals(n: int) | Name(country: string)

  /** The legend items, in order. */
  const Legend: seq<string> := ["Conceded goals", "Scored goals"]

  const ConcededFill := "#d04a35cc"
  const ConcededFillHover := "#e72e11"

  /** What the hover handlers change: every tick's opacity and text weight,
      every legend item's opacity and text weight, and per country (in
      `data` order) the opacity of its scored bar and the fill of its
      conceded bar. */
  datatype View = View(ticks: seq<Tick>, tickOpacity: seq<real>, tickWeight: seq<Weight>,
                       legendOpacity: seq<real>, legendWeight: seq<Weight>,
                       countries: seq<string>, scoredOpacity: seq<real>, concededFill: seq<string>)
  {
    predicate Valid() {
      && |tickOpacity| == |ticks| && |tickWeight| == |ticks|
      && |legendOpacity| == |Legend| && |legendWeight| == |Legend|
      && |scoredOpacity| == |countries| && |concededFill| == |countries|
    }
  }

  ghost predicate AtRest(v: View) {
    && (forall k :: 0 <= k < |v.tickOpacity| ==> v.tickOpacity[k] == 1.0)
    && (forall k :: 0 <= k < |v.tickWeight| ==> v.tickWeight[k] == Normal)
    && (forall l :: 0 <= l < |v.legendOpacity| ==> v.legendOpacity[l] == 1.0)
    && (forall l :: 0 <= l < |v.legendWeight| ==> v.legendWeight[l] == Normal)
    && (forall i :: 0 <= i < |v.scoredOpacity| ==> v.scoredOpacity[i] == 1.0)
    && (forall i :: 0 <= i < |v.concededFill| ==> v.concededFill[i] == ConcededFill)
  }

  function CountryOf(d: CountryData): string {
    d.country
  }

  /** `createChart`: the goal ticks, then one tick per country in `data`
      order, nothing emphasised. */
  function Draw(data: seq<CountryData>): (v: View)
    ensures v.Valid() && AtRest(v)
  {
    var ticks := Map(TickValues(), (n: int) => Goals(n)) + Map(Map(data, CountryOf), (c: string) => Name(c));
    View(ticks, seq(|ticks|, _ => 1.0), seq(|ticks|, _ => Normal), [1.0, 1.0], [Normal, Normal],
         Map(data, CountryOf), seq(|data|, _ => 1.0), seq(|data|, _ => ConcededFill))
  }

  /** The tick filters `node === d.country` and `node !== d.country`. */
  function IsCountry(country: string): Tick -> bool {
    (t: Tick) => t == Name(country)
  }

  function NotCountry(country: string): Tick -> bool {
    (t: Tick) => t != Name(country)
  }

  /** The legend filters `node === "Conceded goals"` and its negation. */
  function IsConceded(): string -> bool {
    (x: string) => x == "Conceded goals"
  }

  function NotConceded(): string -> bool {
    (x: string) => x != "Conceded goals"
  }

  function SameName(country: string): string -> bool {
    (c: string) => c == country
  }

  /** The `mouseover` handler of the conceded bar of `d`. */
  function ConcededOver(v: View, d: CountryData): (r: View)
    requires v.Valid()
    ensures r.Valid()
  {
    v.(scoredOpacity := SetWhere(v.countries, v.scoredOpacity, SameName(d.country), 0.5),
       concededFill := SetWhere(v.countries, v.concededFill, SameName(d.country), ConcededFillHover),
       tickWeight := SetWhere(v.ticks, v.tickWeight, IsCountry(d.country), Bold),
       tickOpacity := SetWhere(v.ticks, v.tickOpacity, NotCountry(d.country), 0.5),
       legendWeight := SetWhere(Legend, v.legendWeight, IsConceded(), Bold),
       legendOpacity := SetWhere(Legend, v.legendOpacity, NotConceded(), 0.3))
  }

  /** The `mouseover` handler of the scored bar of `d`: it leaves the bars
      as they are. */
  function ScoredOver(v: View, d: CountryData): (r: View)
    requires v.Valid()
    ensures r.Valid()
  {
    v.(tickWeight := SetWhere(v.ticks, v.tickWeight, IsCountry(d.country), Bold),
       tickOpacity := SetWhere(v.ticks, v.tickOpacity, NotCountry(d.country), 0.5),
       legendWeight := SetWhere(Legend, v.legendWeight, NotConceded(), Bold),
       legendOpacity := SetWhere(Legend, v.legendOpacity, IsConceded(), 0.3))
  }

  /** The `mouseout` handler of a bar of `d` on `side`: both reset the two
      bars of `d` and the ticks, and each resets its own legend filters. */
  function BarOut(v: View, d: CountryData, side: Side): (r: View)
    requires v.Valid()
    ensures r.Valid()
  {
    var bold := if side == Conceded then IsConceded() else NotConceded();
    var dimmed := if side == Conceded then NotConceded() else IsConceded();
    v.(scoredOpacity := SetWhere(v.countries, v.scoredOpacity, SameName(d.country), 1.0),
       concededFill := SetWhere(v.countries, v.concededFill, SameName(d.country), ConcededFill),
       tickWeight := SetWhere(v.ticks, v.tickWeight, IsCountry(d.country), Normal),
       tickOpacity := SetWhere(v.ticks, v.tickOpacity, NotCountry(d.country), 1.0),
       legendWeight := SetWhere(Legend, v.legendWeight, bold, Normal),
       legendOpacity := SetWhere(Legend, v.legendOpacity, dimmed, 1.0))
  }

  function BarOver(v: View, d: CountryData, side: Side): (r: View)
    requires v.Valid()
    ensures r.Valid()
  {
    match side
    case Conceded => ConcededOver(v, d)
    case Scored => ScoredOver(v, d)
  }

  /** The legend item of a side. */
  function LegendOf(side: Side): string {
    match side
    case Conceded => "Conceded goals"
    case Scored => "Scored goals"
  }

  // ---------------------------------------------------------------
  // Properties

  /** The records give back the four lists: names, scored counts, conceded
      counts (negated back) and colours, index by index. */
  lemma ZipInverse(countries: seq<string>, scored: seq<int>, conceded: seq<int>, colors: seq<string>)
    requires |scored| == |countries| && |conceded| == |countries| && |colors| == |countries|
    ensures var data := Zip(countries, scored, conceded, colors);
            && Map(data, CountryOf) == countries
            && (forall i :: 0 <= i < |data| ==> data[i].scored == scored[i] && -data[i].conceded == conceded[i])
            && (forall i :: 0 <= i < |data| ==> data[i].color == colors[i])
  {
    assert Map(Zip(countries, scored, conceded, colors), CountryOf) == countries;
  }

  /** After `ngOnInit`, `data` is in non-increasing order of goal
      difference, holds exactly the zipped records (one per country, fields
      unchanged), and keeps equal differences in their original order. */
  lemma InitialDataSpec()
    ensures var zipped := Zip(Countries, ScoredGoals, ConcededGoals, Colors);
            && SortedDesc(InitialData(), GoalDifference)
            && multiset(InitialData()) == multiset(zipped)
            && |InitialData()| == |Countries|
            && (forall k :: WithKey(InitialData(), GoalDifference, k) == WithKey(zipped, GoalDifference, k))
  {
    var zipped := Zip(Countries, ScoredGoals, ConcededGoals, Colors);
    forall k ensures WithKey(InitialData(), GoalDifference, k) == WithKey(zipped, GoalDifference, k) {
      SortStable(zipped, GoalDifference, k);
    }
  }

  /** Sorting the zipped records keeps one record per listed country: their
      countries are a permutation of the list. */
  lemma SortedCountries(countries: seq<string>, scored: seq<int>, conceded: seq<int>, colors: seq<string>)
    requires |scored| == |countries| && |conceded| == |countries| && |colors| == |countries|
    ensures var zipped := Zip(countries, scored, conceded, colors);
            multiset(Map(SortDesc(zipped, GoalDifference), CountryOf)) == multiset(countries)
  {
    var zipped := Zip(countries, scored, conceded, colors);
    ZipInverse(countries, scored, conceded, colors);
    MapMultiset(SortDesc(zipped, GoalDifference), zipped, CountryOf);
  }

  /** The country list has no repeats, so `ngOnInit` gives each country
      exactly one record. */
  lemma CountriesDistinct()
    ensures NoDup(Countries)
  {
  }

  /** The ticks are the 17 even numbers from -16 to 16, in increasing
      order, and every even number in that range is one of them. */
  lemma TickValuesSpec(n: int)
    ensures TickValues()[0] == -16 && TickValues()[16] == 16
    ensures forall i, j :: 0 <= i < j < 17 ==> TickValues()[i] < TickValues()[j]
    ensures forall i :: 0 <= i < 17 ==> TickValues()[i] % 2 == 0
    ensures -16 <= n <= 16 && n % 2 == 0 ==> n in TickValues()
  {
    if -16 <= n <= 16 && n % 2 == 0 {
      assert TickValues()[(n + 16) / 2] == n;
    }
  }

  /** A tick label reads back as the tick's distance from zero, so the
      labels on both sides of zero mirror each other. */
  lemma TickLabelSpec(i: int)
    requires 0 <= i < 17
    ensures ParseInt(TickLabel(TickValues()[i])) == Some(Abs(TickValues()[i]))
    ensures TickLabel(TickValues()[i]) == TickLabel(TickValues()[16 - i])
  {
    ParseIntRoundTrip(Abs(TickValues()[i]));
  }

  /** For records zipped from non-negative counts, the tooltips show the
      counts given, never a negated one. */
  lemma TooltipShowsCounts(countries: seq<string>, scored: seq<int>, conceded: seq<int>, colors: seq<string>, i: int)
    requires |scored| == |countries| && |conceded| == |countries| && |colors| == |countries|
    requires 0 <= i < |countries| && scored[i] >= 0 && conceded[i] >= 0
    ensures TooltipCount(Zip(countries, scored, conceded, colors)[i], Conceded) == conceded[i]
    ensures TooltipCount(Zip(countries, scored, conceded, colors)[i], Scored) == scored[i]
  {
  }

  /** Hovering a bar bolds the legend item of its side and dims the other
      to 0.3, bolds the country's tick and dims every other tick to 0.5
      (the goal ticks included); only a conceded bar emphasises its bars. */
  lemma BarOverSpec(v: View, d: CountryData, side: Side, k: int, l: int, c: int)
    requires v.Valid() && AtRest(v) && 0 <= k < |v.ticks| && 0 <= l < |Legend| && 0 <= c < |v.countries|
    ensures var r := BarOver(v, d, side);
            && (r.legendWeight[l] == Bold <==> Legend[l] == LegendOf(side))
            && (r.legendOpacity[l] == 0.3 <==> Legend[l] != LegendOf(side))
            && (r.tickWeight[k] == Bold <==> v.ticks[k] == Name(d.country))
            && r.tickOpacity[k] == (if v.ticks[k] == Name(d.country) then 1.0 else 0.5)
            && r.scoredOpacity[c] == (if side == Conceded && v.countries[c] == d.country then 0.5 else 1.0)
            && r.concededFill[c] == (if side == Conceded && v.countries[c] == d.country then ConcededFillHover else ConcededFill)
  {
  }

  /** Moving the mouse out of a bar after moving it over the same bar gives
      back the chart at rest. */
  lemma BarHoverRoundTrip(v: View, d: CountryData, side: Side)
    requires v.Valid() && AtRest(v)
    ensures BarOut(BarOver(v, d, side), d, side) == v
  {
    var r := BarOut(BarOver(v, d, side), d, side);
    assert r.scoredOpacity == v.scoredOpacity;
    assert r.concededFill == v.concededFill;
    assert r.tickWeight == v.tickWeight;
    assert r.tickOpacity == v.tickOpacity;
    assert r.legendWeight == v.legendWeight;
    assert r.legendOpacity == v.legendOpacity;
  }

  // ---------------------------------------------------------------
  // The component

  class BackToBackChartComponent {
    var data: seq<CountryData>
    var view: View

    constructor()
      ensures data == [] && view == Draw([])
    {
      data := [];
      view := Draw([]);
    }

    /** `ngOnInit`: the records zipped, then sorted in place. */
    method NgOnInit()
      modifies this`data
      ensures data == InitialData()
    {
      data := Zip(Countries, ScoredGoals, ConcededGoals, Colors);
      data := SortDesc(data, GoalDifference);
    }

    method CreateChart()
      modifies this`view
      ensures view == Draw(data)
    {
      view := Draw(data);
    }

    method OnBarMouseOver(d: CountryData, side: Side)
      requires view.Valid()
      modifies this`view
      ensures view == BarOver(old(view), d, side)
    {
      view := BarOver(view, d, side);
    }

    method OnBarMouseOut(d: CountryData, side: Side)
      requires view.Valid()
      modifies this`view
      ensures view == BarOut(old(view), d, side)
    {
      view := BarOut(view, d, side);
    }
  }
}
