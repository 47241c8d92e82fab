/** What the two possession bar charts share: the records their
    `ngOnInit` builds, the sort `createChart` applies to them, the ticks and
    bars it draws, and what the `mouseover` and `mouseout` handlers of a
    bar change. */
module PossessionChart {
  import opened Wrappers
  import opened Seqs
  import opened StableSort
  import opened JsSet
  import opened Style

  /** One record of `data`: a country, its average possession in percent
      and its colour. */
  datatype Possession = Possession(country: string, percentage: real, color: string)

  /** `countries.map((country, i) => ...)`: the three lists read at the same
      index. */
  function Zip(countries: seq<string>, percentages: seq<real>, colors: seq<string>): (data: seq<Possession>)
    requires |percentages| >= |countries| && |colors| >= |countries|
    ensures |data| == |countries|
  {
    seq(|countries|, i requires 0 <= i < |countries| => Possession(countries[i], percentages[i], colors[i]))
  }

  function CountryOf(d: Possession): string {
    d.country
  }

  /** The comparator's key: `eq2.possessionPercentage -
      eq1.possessionPercentage` sorts by non-increasing possession. */
  function PercentageOf(d: Possession): real {
    d.percentage
  }

  /** The sort at the start of `createChart`. */
  function SortByPossession(data: seq<Possession>): seq<Possession> {
    SortDesc(data, PercentageOf)
  }

  function Abs(x: real): real {
    if x < 0.0 then -x else x
  }

  /** The x scale, `d3.scaleLinear().domain([0, 100]).range([0, width])`. */
  function X(v: real, width: real): real {
    v * width / 100.0
  }

  /** A bar's `x`: `x(Math.min(0, d.possessionPercentage))`. */
  function BarX(d: Possession, width: real): real {
    X(if d.percentage < 0.0 then d.percentage else 0.0, width)
  }

  /** A bar's final `width`: `Math.abs(x(d.possessionPercentage) - x(0))`. */
  function BarWidth(d: Possession, width: real): real {
    Abs(X(d.percentage, width) - X(0.0, width))
  }

  // ---------------------------------------------------------------
  // The drawn chart and the hover handlers

  /** What the `#tooltip` shows: the country, the possession without its
      sign, and the colour of its border. */
  datatype Content = Content(country: string, percentage: real, border: string)

  /** The shared `#tooltip` element: its opacity and the content last
      written into it (none before the first hover). */
  datatype Tooltip = Tooltip(opacity: real, content: Option<Content>)

  /** The chart's state the handlers change: the y-axis ticks (bound to
      country names) with their text fill, opacity and weight; the bars
      (bound to the records) with their opacity; and the tooltip. */
  datatype View = View(ticks: seq<string>, tickFill: seq<string>, tickOpacity: seq<real>, tickWeight: seq<Weight>,
                       bars: seq<Possession>, barOpacity: seq<real>, tooltip: Tooltip)
  {
    predicate Valid() {
      && |tickFill| == |ticks| && |tickOpacity| == |ticks| && |tickWeight| == |ticks|
      && |barOpacity| == |bars|
    }
  }

  /** No tick and no bar emphasised. */
  ghost predicate AtRest(v: View) {
    && (forall k :: 0 <= k < |v.tickOpacity| ==> v.tickOpacity[k] == 1.0)
    && (forall k :: 0 <= k < |v.tickWeight| ==> v.tickWeight[k] == Normal)
    && (forall i :: 0 <= i < |v.barOpacity| ==> v.barOpacity[i] == 1.0)
  }

  /** The y domain: `data.map(d => d.country)`, which the band scale keeps
      once per distinct name, in order of first appearance. */
  function Ticks(data: seq<Possession>): (ticks: seq<string>)
    ensures |ticks| <= |data| && NoDup(ticks)
    ensures forall c :: c in ticks <==> exists i :: 0 <= i < |data| && data[i].country == c
  {
    var names := Map(data, CountryOf);
    assert forall c :: c in names <==> exists i :: 0 <= i < |data| && data[i].country == c by {
      forall c | c in names ensures exists i :: 0 <= i < |data| && data[i].country == c {
        var i :| 0 <= i < |names| && names[i] == c;
      }
      forall c | exists i :: 0 <= i < |data| && data[i].country == c ensures c in names {
        var i :| 0 <= i < |data| && data[i].country == c;
        assert names[i] == c;
      }
    }
    AddAll([], names)
  }

  /** `createChart` after the sort: the ticks, the `i`-th one filled with
      `data[i].color`, and one bar per record, all at rest; the tooltip is
      outside the chart and keeps its state. */
  function Draw(data: seq<Possession>, tooltip: Tooltip): (v: View)
    ensures v.Valid() && AtRest(v)
  {
    var ticks := Ticks(data);
    View(ticks, seq(|ticks|, i requires 0 <= i < |ticks| => data[i].color),
         seq(|ticks|, _ => 1.0), seq(|ticks|, _ => Normal),
         data, seq(|data|, _ => 1.0), tooltip)
  }

  /** `removeChart`: every element of the chart removed; the tooltip is
      outside the chart and keeps its state. */
  function Removed(v: View): (r: View)
    ensures r.Valid() && r.ticks == [] && r.bars == [] && r.tooltip == v.tooltip
  {
    View([], [], [], [], [], [], v.tooltip)
  }

  /** The tick filters `node === d.country` and `node !== d.country`. */
  function IsCountry(country: string): string -> bool {
    (t: string) => t == country
  }

  function NotCountry(country: string): string -> bool {
    (t: string) => t != country
  }

  /** The bar filter `node.country !== d.country`. */
  function OtherBar(country: string): Possession -> bool {
    (b: Possession) => b.country != country
  }

  /** `node.country` read on a tick's datum: the datum is a string, which
      has no `country` property, so the read gives `undefined`. */
  function TickCountryField(t: string): Option<string> {
    None
  }

  /** The tick filter of `mouseout`, `node.country !== d.country`:
      `undefined` is never a country name. */
  function TickFieldDiffers(country: string): string -> bool {
    (t: string) => TickCountryField(t) != Some(country)
  }

  /** The `mouseover` handler of the bar of `d`, with every transition at
      its end. Its first statement fills the elements of class
      `possession-<country>`, and no element has such a class, so it
      changes nothing. */
  function MouseOver(v: View, d: Possession): (r: View)
    requires v.Valid()
    ensures r.Valid()
  {
    v.(tickWeight := SetWhere(v.ticks, v.tickWeight, IsCountry(d.country), Bold),
       tickOpacity := SetWhere(v.ticks, v.tickOpacity, NotCountry(d.country), 0.3),
       barOpacity := SetWhere(v.bars, v.barOpacity, OtherBar(d.country), 0.3),
       tooltip := Tooltip(1.0, Some(Content(d.country, Abs(d.percentage), d.color))))
  }

  /** The `mouseout` handler of the bar of `d`, with every transition at
      its end. */
  function MouseOut(v: View, d: Possession): (r: View)
    requires v.Valid()
    ensures r.Valid()
  {
    v.(tickWeight := SetWhere(v.ticks, v.tickWeight, TickFieldDiffers(d.country), Normal),
       tooltip := v.tooltip.(opacity := 0.0),
       barOpacity := SetWhere(v.bars, v.barOpacity, OtherBar(d.country), 1.0),
       tickOpacity := SetWhere(v.ticks, v.tickOpacity, NotCountry(d.country), 1.0))
  }

  // ---------------------------------------------------------------
  // Properties

  /** The records give back the three lists, index by index. */
  lemma ZipInverse(countries: seq<string>, percentages: seq<real>, colors: seq<string>)
    requires |percentages| >= |countries| && |colors| >= |countries|
    ensures var data := Zip(countries, percentages, colors);
            && Map(data, CountryOf) == countries
            && (forall i :: 0 <= i < |data| ==> data[i].percentage == percentages[i] && data[i].color == colors[i])
  {
    assert Map(Zip(countries, percentages, colors), CountryOf) == countries;
  }

  /** `createChart` leaves `data` in non-increasing order of possession,
      holding the same records, with equal percentages in their previous
      order; sorting again changes nothing, so drawing the chart a second
      time keeps the order of the first. */
  lemma SortByPossessionSpec(data: seq<Possession>)
    ensures SortedDesc(SortByPossession(data), PercentageOf)
    ensures multiset(SortByPossession(data)) == multiset(data)
    ensures forall p :: WithKey(SortByPossession(data), PercentageOf, p) == WithKey(data, PercentageOf, p)
    ensures SortByPossession(SortByPossession(data)) == SortByPossession(data)
  {
    forall p ensures WithKey(SortByPossession(data), PercentageOf, p) == WithKey(data, PercentageOf, p) {
      SortStable(data, PercentageOf, p);
    }
    SortIdempotent(data, PercentageOf);
  }

  /** With distinct country names, the ticks are the countries in `data`
      order and tick `i` takes the colour of its own country's record. */
  lemma DrawTicks(data: seq<Possession>, tooltip: Tooltip)
    requires NoDup(Map(data, CountryOf))
    ensures var v := Draw(data, tooltip);
            && v.ticks == Map(data, CountryOf)
            && forall i :: 0 <= i < |v.ticks| ==> v.ticks[i] == data[i].country && v.tickFill[i] == data[i].color
  {
    var names := Map(data, CountryOf);
    assert Ticks(data) == names by {
      assert [] + names == names;
      AddAllFresh([], names);
    }
  }

  /** Drawn from the zipped and sorted lists of distinct countries, tick
      `k` names a listed country and has the colour listed for it, and the
      bar at the same position shows that country's listed possession. */
  lemma SortedTicksKeepColors(countries: seq<string>, percentages: seq<real>, colors: seq<string>, tooltip: Tooltip, k: int)
    requires |percentages| >= |countries| && |colors| >= |countries|
    requires NoDup(countries)
    requires 0 <= k < |countries|
    ensures var v := Draw(SortByPossession(Zip(countries, percentages, colors)), tooltip);
            && |v.ticks| == |countries|
            && exists j :: 0 <= j < |countries| && countries[j] == v.ticks[k] && colors[j] == v.tickFill[k]
                 && v.bars[k] == Possession(countries[j], percentages[j], colors[j])
  {
    var zipped := Zip(countries, percentages, colors);
    var data := SortByPossession(zipped);
    ZipInverse(countries, percentages, colors);
    MapMultiset(data, zipped, CountryOf);
    NoDupPermutation(Map(zipped, CountryOf), Map(data, CountryOf));
    DrawTicks(data, tooltip);
    assert data[k] in multiset(zipped);
    var j :| 0 <= j < |zipped| && zipped[j] == data[k];
  }

  /** A permutation of a sequence of distinct elements is distinct. */
  lemma NoDupPermutation<T>(xs: seq<T>, ys: seq<T>)
    requires NoDup(xs) && multiset(xs) == multiset(ys)
    ensures NoDup(ys)
  {
    forall a, b | 0 <= a < b < |ys| ensures ys[a] != ys[b] {
      if ys[a] == ys[b] {
        MultiplicityTwo(ys, a, b);
        MultiplicityOne(xs, ys[a]);
      }
    }
  }

  lemma MultiplicityTwo<T>(s: seq<T>, a: int, b: int)
    requires 0 <= a < b < |s| && s[a] == s[b]
    ensures multiset(s)[s[a]] >= 2
  {
    assert s == s[..a] + [s[a]] + s[a + 1..b] + [s[b]] + s[b + 1..];
  }

  lemma {:induction false} MultiplicityOne<T>(s: seq<T>, x: T)
    requires NoDup(s)
    ensures multiset(s)[x] <= 1
  {
    if s != [] {
      NoDupTail(s);
      MultiplicityOne(s[1..], x);
      assert s == [s[0]] + s[1..];
    }
  }

  /** A bar starts at `x(0)` and ends at `x(possession)`, so the bars of
      sorted records get no longer down the chart. */
  lemma BarSpan(data: seq<Possession>, width: real, i: int, j: int)
    requires width >= 0.0
    requires forall d :: d in data ==> d.percentage >= 0.0
    requires SortedDesc(data, PercentageOf) && 0 <= i < j < |data|
    ensures BarX(data[i], width) == 0.0 && BarX(data[i], width) + BarWidth(data[i], width) == X(data[i].percentage, width)
    ensures BarWidth(data[i], width) >= BarWidth(data[j], width)
  {
    assert data[i].percentage >= data[j].percentage;
    assert data[i] in data && data[j] in data;
    assert data[i].percentage * width >= data[j].percentage * width by {
      assert (data[i].percentage - data[j].percentage) * width >= 0.0;
    }
  }

  /** On a chart at rest, hovering the bar of `d` dims every other bar and
      every other tick to 0.3, bolds exactly the tick of `d`'s country and
      shows `d` in the tooltip, framed in its colour. */
  lemma MouseOverSpec(v: View, d: Possession, k: int, i: int)
    requires v.Valid() && AtRest(v) && 0 <= k < |v.ticks| && 0 <= i < |v.bars|
    ensures var r := MouseOver(v, d);
            && (r.tickWeight[k] == Bold <==> v.ticks[k] == d.country)
            && r.tickOpacity[k] == (if v.ticks[k] == d.country then 1.0 else 0.3)
            && r.barOpacity[i] == (if v.bars[i].country == d.country then 1.0 else 0.3)
            && r.tooltip == Tooltip(1.0, Some(Content(d.country, Abs(d.percentage), d.color)))
            && r.ticks == v.ticks && r.tickFill == v.tickFill && r.bars == v.bars
  {
  }

  /** Moving the mouse out of any bar puts every tick back to normal
      weight, whichever country it names, since its filter keeps every
      tick. */
  lemma MouseOutResetsEveryTick(v: View, d: Possession, k: int)
    requires v.Valid() && 0 <= k < |v.ticks|
    ensures MouseOut(v, d).tickWeight[k] == Normal
  {
  }

  /** Moving the mouse out of a bar after moving it over the same bar gives
      back the chart at rest; the tooltip is invisible and keeps the
      content of the hovered bar. */
  lemma HoverRoundTrip(v: View, d: Possession)
    requires v.Valid() && AtRest(v)
    ensures MouseOut(MouseOver(v, d), d) == v.(tooltip := Tooltip(0.0, Some(Content(d.country, Abs(d.percentage), d.color))))
  {
    var r := MouseOut(MouseOver(v, d), d);
    assert r.tickWeight == v.tickWeight;
    assert r.tickOpacity == v.tickOpacity;
    assert r.barOpacity == v.barOpacity;
  }
}
