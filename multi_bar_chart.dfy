/** The grouped bar chart as drawn: the opacity of every bar, tick label
    and legend item, the font weight of every legend text, and the number
    of value labels in every bar group.
    These are what `highlightBar`, `unhighlightBar`, `highlightXLabel`,
    `unhighlightXLabel`, `highlightLegend` and `unhighlightLegend` change,
    and what the mouse handlers of `createChart` change through them. */
module MultiBarChart {
  import opened JsObject
  import opened Seqs
  import opened MultiBarData
  import opened Style

  /** The drawn chart: the bar groups with their rect's opacity and their
      number of `text` labels, the x-axis tick labels (the countries) with
      their opacity, and the legend items (the types) with theirs and the
      `font-weight` of their `text`. */
  datatype Svg = Svg(bars: seq<Bar>, opacity: seq<real>, labels: seq<nat>,
                     ticks: seq<string>, tickOpacity: seq<real>,
                     legend: seq<string>, legendOpacity: seq<real>, legendWeight: seq<Weight>)
  {
    predicate Valid() {
      |opacity| == |bars| && |labels| == |bars| && |tickOpacity| == |ticks| && |legendOpacity| == |legend|
      && |legendWeight| == |legend|
    }
  }

  /** Nothing dimmed, nothing bold and no value label shown. */
  ghost predicate AtRest(s: Svg) {
    && (forall i :: 0 <= i < |s.opacity| ==> s.opacity[i] == 1.0)
    && (forall i :: 0 <= i < |s.labels| ==> s.labels[i] == 0)
    && (forall k :: 0 <= k < |s.tickOpacity| ==> s.tickOpacity[k] == 1.0)
    && (forall k :: 0 <= k < |s.legendOpacity| ==> s.legendOpacity[k] == 1.0)
    && (forall k :: 0 <= k < |s.legendWeight| ==> s.legendWeight[k] == Normal)
  }

  /** `createChart`: one group per bar, one tick per country, one legend
      item per type, everything fully opaque, in normal weight and
      unlabelled. */
  function Draw(m: DataSets): (s: Svg)
    ensures s.Valid() && AtRest(s)
    ensures s.bars == Bars(m) && s.ticks == Keys(m) && s.legend == Types
  {
    var bars := Bars(m);
    Svg(bars, seq(|bars|, _ => 1.0), seq(|bars|, _ => 0), Keys(m), seq(|m|, _ => 1.0), Types, [1.0, 1.0, 1.0], [Normal, Normal, Normal])
  }

  // ---------------------------------------------------------------
  // The filters of highlightBar and unhighlightBar

  /** The rects `highlightBar(d, fCountry, fType)` dims and
      `unhighlightBar(d, fCountry, fType)` restores. */
  predicate Dimmed(node: Bar, d: Bar, fCountry: bool, fType: bool) {
    if fCountry then
      if fType then node.country != d.country || node.kind != d.kind
      else node.country != d.country
    else
      if fType then node.kind != d.kind
      else false
  }

  /** The groups `highlightBar` adds a value label to and `unhighlightBar`
      removes the labels of. */
  predicate Labelled(node: Bar, d: Bar, fCountry: bool, fType: bool) {
    if fCountry then
      if fType then node.country == d.country && node.kind == d.kind
      else node.country == d.country
    else
      if fType then node.kind == d.kind
      else true
  }

  /** The opacity the highlighting functions write (`on`) and the one the
      unhighlighting functions write back. */
  function Level(on: bool): real {
    if on then 0.3 else 1.0
  }

  /** The `font-weight` `highlightLegend` writes (`on`) and the one
      `unhighlightLegend` writes back. */
  function Emphasis(on: bool): Weight {
    if on then Bold else Normal
  }

  /** `highlightBar(d, fCountry, fType)`: the dimmed rects get opacity 0.3
      and each labelled group one more `text`. */
  function HighlightBars(s: Svg, d: Bar, fCountry: bool, fType: bool): (r: Svg)
    requires s.Valid()
    ensures r.Valid() && r.bars == s.bars && r.ticks == s.ticks && r.tickOpacity == s.tickOpacity
    ensures r.legend == s.legend && r.legendOpacity == s.legendOpacity && r.legendWeight == s.legendWeight
  {
    s.(opacity := SetWhere(s.bars, s.opacity, b => Dimmed(b, d, fCountry, fType), 0.3),
       labels := seq(|s.bars|, i requires 0 <= i < |s.bars| =>
                       if Labelled(s.bars[i], d, fCountry, fType) then s.labels[i] + 1 else s.labels[i]))
  }

  /** `unhighlightBar(d, fCountry, fType)`: the same rects back to opacity
      1, and every `text` of the same groups removed. */
  function UnhighlightBars(s: Svg, d: Bar, fCountry: bool, fType: bool): (r: Svg)
    requires s.Valid()
    ensures r.Valid() && r.bars == s.bars && r.ticks == s.ticks && r.tickOpacity == s.tickOpacity
    ensures r.legend == s.legend && r.legendOpacity == s.legendOpacity && r.legendWeight == s.legendWeight
  {
    s.(opacity := SetWhere(s.bars, s.opacity, b => Dimmed(b, d, fCountry, fType), 1.0),
       labels := SetWhere(s.bars, s.labels, b => Labelled(b, d, fCountry, fType), 0))
  }

  /** `highlightXLabel(d)` (`on`) and `unhighlightXLabel(d)`: the tick
      labels of the other countries to opacity 0.3, or back to 1. */
  function XLabels(s: Svg, country: string, on: bool): (r: Svg)
    requires s.Valid()
    ensures r.Valid() && r == s.(tickOpacity := r.tickOpacity)
  {
    s.(tickOpacity := SetWhere(s.ticks, s.tickOpacity, t => t != country, Level(on)))
  }

  /** `highlightLegend(d)` (`on`) and `unhighlightLegend(d)`: the legend
      items of the other types to opacity 0.3, or back to 1, and the text
      of the items of type `kind` to bold, or back to normal. */
  function LegendItems(s: Svg, kind: string, on: bool): (r: Svg)
    requires s.Valid()
    ensures r.Valid() && r == s.(legendOpacity := r.legendOpacity, legendWeight := r.legendWeight)
    ensures forall k :: 0 <= k < |s.legend| ==>
              && r.legendOpacity[k] == (if s.legend[k] != kind then Level(on) else s.legendOpacity[k])
              && r.legendWeight[k] == (if s.legend[k] == kind then Emphasis(on) else s.legendWeight[k])
  {
    s.(legendOpacity := SetWhere(s.legend, s.legendOpacity, t => t != kind, Level(on)),
       legendWeight := SetWhere(s.legend, s.legendWeight, t => t == kind, Emphasis(on)))
  }

  // ---------------------------------------------------------------
  // The mouse handlers

  /** `selectAll('.bar-g rect').filter(sel).each(dd => ...)` over the first
      `n` bars: `highlightBar(dd, fCountry, fType)` then
      `highlightXLabel(dd)` when `on`, the `unhighlight` pair otherwise. */
  function EachBar(s: Svg, sel: Bar -> bool, fCountry: bool, fType: bool, on: bool, n: nat): (r: Svg)
    requires s.Valid() && n <= |s.bars|
    ensures r.Valid() && r.bars == s.bars && r.ticks == s.ticks
    ensures r.legend == s.legend && r.legendOpacity == s.legendOpacity && r.legendWeight == s.legendWeight
  {
    if n == 0 then s
    else
      var r := EachBar(s, sel, fCountry, fType, on, n - 1);
      var dd := s.bars[n - 1];
      if !sel(dd) then r
      else if on then XLabels(HighlightBars(r, dd, fCountry, fType), dd.country, true)
      else XLabels(UnhighlightBars(r, dd, fCountry, fType), dd.country, false)
  }

  /** `selectAll('.legend-item').filter(node => node.type === kind).each(...)`
      over the first `n` legend items: `highlightLegend(dd)` when `on`,
      `unhighlightLegend(dd)` otherwise. */
  function EachLegend(s: Svg, kind: string, on: bool, n: nat): (r: Svg)
    requires s.Valid() && n <= |s.legend|
    ensures r.Valid() && r == s.(legendOpacity := r.legendOpacity, legendWeight := r.legendWeight)
  {
    if n == 0 then s
    else
      var r := EachLegend(s, kind, on, n - 1);
      if s.legend[n - 1] != kind then r else LegendItems(r, s.legend[n - 1], on)
  }

  function SameCountry(country: string): Bar -> bool {
    (b: Bar) => b.country == country
  }

  function SameKind(kind: string): Bar -> bool {
    (b: Bar) => b.kind == kind
  }

  /** Mouse over (`on`) or out of the rect of bar `d`. */
  function BarHover(s: Svg, d: Bar, on: bool): Svg
    requires s.Valid()
  {
    var r := if on then HighlightBars(s, d, true, true) else UnhighlightBars(s, d, true, true);
    EachLegend(XLabels(r, d.country, on), d.kind, on, |s.legend|)
  }

  /** Mouse over (`on`) or out of the tick label of `country`. */
  function TickHover(s: Svg, country: string, on: bool): Svg
    requires s.Valid()
  {
    EachBar(s, SameCountry(country), true, false, on, |s.bars|)
  }

  /** Mouse over (`on`) or out of the legend item of `kind`. */
  function LegendHover(s: Svg, kind: string, on: bool): Svg
    requires s.Valid()
  {
    LegendItems(EachBar(s, SameKind(kind), false, true, on, |s.bars|), kind, on)
  }

  // ---------------------------------------------------------------
  // What a sequence of calls amounts to

  /** Some bar among the first `n` that `sel` picks dims `x`. */
  function DimmedBy(bars: seq<Bar>, sel: Bar -> bool, fCountry: bool, fType: bool, n: nat, x: Bar): bool
    requires n <= |bars|
  {
    n > 0 && (DimmedBy(bars, sel, fCountry, fType, n - 1, x) || (sel(bars[n - 1]) && Dimmed(x, bars[n - 1], fCountry, fType)))
  }

  /** How many bars among the first `n` that `sel` picks label `x`. */
  function LabelCount(bars: seq<Bar>, sel: Bar -> bool, fCountry: bool, fType: bool, n: nat, x: Bar): nat
    requires n <= |bars|
  {
    if n == 0 then 0
    else LabelCount(bars, sel, fCountry, fType, n - 1, x) +
         if sel(bars[n - 1]) && Labelled(x, bars[n - 1], fCountry, fType) then 1 else 0
  }

  /** Some bar among the first `n` that `sel` picks is of another country
      than `tick`. */
  function TickDimmedBy(bars: seq<Bar>, sel: Bar -> bool, n: nat, tick: string): bool
    requires n <= |bars|
  {
    n > 0 && (TickDimmedBy(bars, sel, n - 1, tick) || (sel(bars[n - 1]) && bars[n - 1].country != tick))
  }

  /** How many of the first `n` bars `sel` picks. */
  function Picked(bars: seq<Bar>, sel: Bar -> bool, n: nat): nat
    requires n <= |bars|
  {
    if n == 0 then 0 else Picked(bars, sel, n - 1) + if sel(bars[n - 1]) then 1 else 0
  }

  // ---------------------------------------------------------------
  // Properties

  /** For every `(fCountry, fType)`, the rects `highlightBar` dims are
      exactly the groups it does not label, and a group is labelled exactly
      when it agrees with `d` on the keys switched on. */
  lemma DimmedIffNotLabelled(node: Bar, d: Bar, fCountry: bool, fType: bool)
    ensures Dimmed(node, d, fCountry, fType) <==> !Labelled(node, d, fCountry, fType)
    ensures Labelled(node, d, fCountry, fType) <==>
              (fCountry ==> node.country == d.country) && (fType ==> node.kind == d.kind)
  {
  }

  /** With both keys off, nothing is dimmed and everything is labelled; a
      bar that agrees with `d` on country and type is never dimmed. */
  lemma NoKeysNoDimming(node: Bar, d: Bar, fCountry: bool, fType: bool)
    ensures !fCountry && !fType ==> !Dimmed(node, d, fCountry, fType) && Labelled(node, d, fCountry, fType)
    ensures node.country == d.country && node.kind == d.kind ==> !Dimmed(node, d, fCountry, fType)
  {
  }

  /** After `highlightBar` on a chart at rest, a bar is dimmed exactly when
      its group carries no value label, and labelled groups carry one. */
  lemma HighlightPartition(s: Svg, d: Bar, fCountry: bool, fType: bool, i: int)
    requires s.Valid() && AtRest(s) && 0 <= i < |s.bars|
    ensures var r := HighlightBars(s, d, fCountry, fType);
            && (r.opacity[i] == 0.3 <==> r.labels[i] == 0)
            && (r.opacity[i] == 1.0 <==> r.labels[i] == 1)
            && (r.labels[i] == 1 <==> Labelled(s.bars[i], d, fCountry, fType))
  {
  }

  /** `unhighlightBar` undoes `highlightBar` with the same arguments: it
      restores opacity on exactly the dimmed rects and removes the labels
      of exactly the labelled groups. */
  lemma UnhighlightUndoesHighlight(s: Svg, d: Bar, fCountry: bool, fType: bool)
    requires s.Valid() && AtRest(s)
    ensures UnhighlightBars(HighlightBars(s, d, fCountry, fType), d, fCountry, fType) == s
  {
    var r := UnhighlightBars(HighlightBars(s, d, fCountry, fType), d, fCountry, fType);
    assert r.opacity == s.opacity;
    assert r.labels == s.labels;
  }

  /** `highlightXLabel` dims exactly the ticks of the other countries and
      `unhighlightXLabel` restores exactly those. */
  lemma XLabelsSpec(s: Svg, country: string, k: int)
    requires s.Valid() && AtRest(s) && 0 <= k < |s.ticks|
    ensures XLabels(s, country, true).tickOpacity[k] == if s.ticks[k] != country then 0.3 else 1.0
    ensures XLabels(XLabels(s, country, true), country, false) == s
  {
    var r := XLabels(XLabels(s, country, true), country, false);
    assert r.tickOpacity == s.tickOpacity;
  }

  /** The effect of the first `n` steps of an `each` over the bars. */
  lemma {:induction false} EachBarState(s: Svg, sel: Bar -> bool, fCountry: bool, fType: bool, on: bool, n: nat)
    requires s.Valid() && n <= |s.bars|
    ensures var r := EachBar(s, sel, fCountry, fType, on, n);
            && (forall i :: 0 <= i < |s.bars| ==>
                  r.opacity[i] == if DimmedBy(s.bars, sel, fCountry, fType, n, s.bars[i]) then Level(on) else s.opacity[i])
            && (forall i :: 0 <= i < |s.bars| ==>
                  r.labels[i] == if on then s.labels[i] + LabelCount(s.bars, sel, fCountry, fType, n, s.bars[i])
                                 else if LabelCount(s.bars, sel, fCountry, fType, n, s.bars[i]) > 0 then 0
                                 else s.labels[i])
            && (forall k :: 0 <= k < |s.ticks| ==>
                  r.tickOpacity[k] == if TickDimmedBy(s.bars, sel, n, s.ticks[k]) then Level(on) else s.tickOpacity[k])
  {
    if n > 0 {
      EachBarState(s, sel, fCountry, fType, on, n - 1);
    }
  }

  /** Leaving undoes entering: the unhighlighting `each` restores a chart at
      rest after the highlighting one over the same bars. */
  lemma EachBarRoundTrip(s: Svg, sel: Bar -> bool, fCountry: bool, fType: bool, n: nat)
    requires s.Valid() && AtRest(s) && n <= |s.bars|
    ensures EachBar(EachBar(s, sel, fCountry, fType, true, n), sel, fCountry, fType, false, n) == s
  {
    var h := EachBar(s, sel, fCountry, fType, true, n);
    var r := EachBar(h, sel, fCountry, fType, false, n);
    EachBarState(s, sel, fCountry, fType, true, n);
    EachBarState(h, sel, fCountry, fType, false, n);
    assert r.opacity == s.opacity;
    assert r.labels == s.labels;
    assert r.tickOpacity == s.tickOpacity;
  }

  /** Each legend item of `kind` dims the others and sets the weight of
      the items of `kind` the same way. */
  lemma EachLegendState(s: Svg, kind: string, on: bool, n: nat)
    requires s.Valid() && n <= |s.legend|
    ensures var r := EachLegend(s, kind, on, n);
            && (forall k :: 0 <= k < |s.legend| ==>
                  r.legendOpacity[k] == if kind in s.legend[..n] && s.legend[k] != kind then Level(on) else s.legendOpacity[k])
            && (forall k :: 0 <= k < |s.legend| ==>
                  r.legendWeight[k] == if kind in s.legend[..n] && s.legend[k] == kind then Emphasis(on) else s.legendWeight[k])
  {
    forall k | 0 <= k < |s.legend| {
      EachLegendAt(s, kind, on, n, k);
    }
  }

  /** The same for legend item `k`. */
  lemma {:induction false} EachLegendAt(s: Svg, kind: string, on: bool, n: nat, k: int)
    requires s.Valid() && n <= |s.legend| && 0 <= k < |s.legend|
    ensures var r := EachLegend(s, kind, on, n);
            && r.legendOpacity[k] == (if kind in s.legend[..n] && s.legend[k] != kind then Level(on) else s.legendOpacity[k])
            && r.legendWeight[k] == (if kind in s.legend[..n] && s.legend[k] == kind then Emphasis(on) else s.legendWeight[k])
  {
    if n > 0 {
      EachLegendAt(s, kind, on, n - 1, k);
      assert s.legend[..n] == s.legend[..n - 1] + [s.legend[n - 1]];
    }
  }

  /** Moving the mouse out of a bar, a tick or a legend item after moving
      it over the same one gives back the chart at rest. */
  lemma HoverRoundTrip(s: Svg, d: Bar, country: string, kind: string)
    requires s.Valid() && AtRest(s)
    ensures BarHover(BarHover(s, d, true), d, false) == s
    ensures TickHover(TickHover(s, country, true), country, false) == s
    ensures LegendHover(LegendHover(s, kind, true), kind, false) == s
  {
    EachBarRoundTrip(s, SameCountry(country), true, false, |s.bars|);
    var h := EachBar(s, SameKind(kind), false, true, true, |s.bars|);
    EachBarState(s, SameKind(kind), false, true, true, |s.bars|);
    var hl := LegendItems(h, kind, true);
    EachBarState(hl, SameKind(kind), false, true, false, |s.bars|);
    var r := LegendHover(hl, kind, false);
    assert r.opacity == s.opacity;
    assert r.labels == s.labels;
    assert r.tickOpacity == s.tickOpacity;
    assert r.legendOpacity == s.legendOpacity;
    assert r.legendWeight == s.legendWeight;
    BarRoundTrip(s, d);
  }

  lemma BarRoundTrip(s: Svg, d: Bar)
    requires s.Valid() && AtRest(s)
    ensures BarHover(BarHover(s, d, true), d, false) == s
  {
    var h1 := XLabels(HighlightBars(s, d, true, true), d.country, true);
    var h := BarHover(s, d, true);
    EachLegendState(h1, d.kind, true, |s.legend|);
    var r1 := XLabels(UnhighlightBars(h, d, true, true), d.country, false);
    var r := BarHover(h, d, false);
    EachLegendState(r1, d.kind, false, |s.legend|);
    assert r.opacity == s.opacity;
    assert r.labels == s.labels;
    assert r.tickOpacity == s.tickOpacity;
    assert r.legendOpacity == s.legendOpacity;
    assert r.legendWeight == s.legendWeight;
  }

  lemma {:induction false} DimmedByExists(bars: seq<Bar>, sel: Bar -> bool, fCountry: bool, fType: bool, n: nat, x: Bar)
    requires n <= |bars|
    ensures DimmedBy(bars, sel, fCountry, fType, n, x) <==>
              exists j :: 0 <= j < n && sel(bars[j]) && Dimmed(x, bars[j], fCountry, fType)
  {
    if n > 0 {
      DimmedByExists(bars, sel, fCountry, fType, n - 1, x);
    }
  }

  lemma {:induction false} TickDimmedByExists(bars: seq<Bar>, sel: Bar -> bool, n: nat, tick: string)
    requires n <= |bars|
    ensures TickDimmedBy(bars, sel, n, tick) <==> exists j :: 0 <= j < n && sel(bars[j]) && bars[j].country != tick
  {
    if n > 0 {
      TickDimmedByExists(bars, sel, n - 1, tick);
    }
  }

  /** When every picked bar labels `x` alike, `x` gets one label per picked
      bar or none. */
  lemma {:induction false} LabelCountUniform(bars: seq<Bar>, sel: Bar -> bool, fCountry: bool, fType: bool, n: nat,
                                             x: Bar, labelled: bool)
    requires n <= |bars|
    requires forall j :: 0 <= j < n && sel(bars[j]) ==> Labelled(x, bars[j], fCountry, fType) == labelled
    ensures LabelCount(bars, sel, fCountry, fType, n, x) == if labelled then Picked(bars, sel, n) else 0
  {
    if n > 0 {
      LabelCountUniform(bars, sel, fCountry, fType, n - 1, x, labelled);
    }
  }

  /** Hovering the tick label of a country that has bars dims the bars and
      tick labels of every other country, and stacks on each bar of that
      country one value label per bar of the country (the handler calls
      `highlightBar` once for each of them). */
  lemma TickHoverSpec(s: Svg, country: string, i: int, k: int)
    requires s.Valid() && AtRest(s) && 0 <= i < |s.bars| && 0 <= k < |s.ticks|
    requires exists j :: 0 <= j < |s.bars| && s.bars[j].country == country
    ensures var r := TickHover(s, country, true);
            && r.opacity[i] == (if s.bars[i].country != country then 0.3 else 1.0)
            && r.labels[i] == (if s.bars[i].country == country then Picked(s.bars, SameCountry(country), |s.bars|) else 0)
            && r.tickOpacity[k] == (if s.ticks[k] != country then 0.3 else 1.0)
            && r.legendOpacity == s.legendOpacity && r.legendWeight == s.legendWeight
  {
    var sel, n := SameCountry(country), |s.bars|;
    EachBarState(s, sel, true, false, true, n);
    DimmedByExists(s.bars, sel, true, false, n, s.bars[i]);
    TickDimmedByExists(s.bars, sel, n, s.ticks[k]);
    LabelCountUniform(s.bars, sel, true, false, n, s.bars[i], s.bars[i].country == country);
  }

  /** Hovering a legend item dims the bars of the other types and the legend
      items of the other types, sets the item's own text in bold, labels each bar of the type once per bar of
      the type, and dims a tick label exactly when a bar of the type belongs
      to another country (the handler calls `highlightXLabel` for each of
      them). */
  lemma LegendHoverSpec(s: Svg, kind: string, i: int, k: int, l: int)
    requires s.Valid() && AtRest(s) && 0 <= i < |s.bars| && 0 <= k < |s.ticks| && 0 <= l < |s.legend|
    requires exists j :: 0 <= j < |s.bars| && s.bars[j].kind == kind
    ensures var r := LegendHover(s, kind, true);
            && r.opacity[i] == (if s.bars[i].kind != kind then 0.3 else 1.0)
            && r.labels[i] == (if s.bars[i].kind == kind then Picked(s.bars, SameKind(kind), |s.bars|) else 0)
            && (r.tickOpacity[k] == 0.3 <==>
                  exists j :: 0 <= j < |s.bars| && s.bars[j].kind == kind && s.bars[j].country != s.ticks[k])
            && r.legendOpacity[l] == (if s.legend[l] != kind then 0.3 else 1.0)
            && r.legendWeight[l] == (if s.legend[l] == kind then Bold else Normal)
  {
    var sel, n := SameKind(kind), |s.bars|;
    EachBarState(s, sel, false, true, true, n);
    DimmedByExists(s.bars, sel, false, true, n, s.bars[i]);
    TickDimmedByExists(s.bars, sel, n, s.ticks[k]);
    LabelCountUniform(s.bars, sel, false, true, n, s.bars[i], s.bars[i].kind == kind);
  }

  /** On the chart `createChart` draws from two or more countries, hovering
      a legend item dims every tick label. */
  lemma LegendHoverDimsEveryTick(m: DataSets, t: int, k: int)
    requires UniqueKeys(m) && 2 <= |m| && 0 <= t < 3 && 0 <= k < |m|
    ensures LegendHover(Draw(m), Types[t], true).tickOpacity[k] == 0.3
  {
    var s := Draw(m);
    var other := if k == 0 then 1 else 0;
    BarsAt(m, other, t);
    BarsAt(m, 0, t);
    KeysAt(m);
    var j := 3 * other + t;
    assert s.bars[j].kind == Types[t] && s.bars[j].country == m[other].0 != s.ticks[k];
    LegendHoverSpec(s, Types[t], 0, k, 0);
  }

  /** On the chart `createChart` draws from distinct countries, hovering a
      bar labels that bar alone, dims every other bar, the tick labels of
      the other countries and the legend items of the other types, and sets
      the text of the bar type's legend item in bold. */
  lemma BarHoverDrawn(m: DataSets, a: int, j: int, k: int, l: int)
    requires UniqueKeys(m) && 0 <= a < |Bars(m)| && 0 <= j < |Bars(m)| && 0 <= k < |m| && 0 <= l < 3
    ensures var r := BarHover(Draw(m), Bars(m)[a], true);
            && r.labels[j] == (if j == a then 1 else 0)
            && r.opacity[j] == (if j == a then 1.0 else 0.3)
            && r.tickOpacity[k] == (if m[k].0 != Bars(m)[a].country then 0.3 else 1.0)
            && r.legendOpacity[l] == (if Types[l] != Bars(m)[a].kind then 0.3 else 1.0)
            && r.legendWeight[l] == (if Types[l] == Bars(m)[a].kind then Bold else Normal)
  {
    var s := Draw(m);
    var d := Bars(m)[a];
    if j != a {
      BarsDistinct(m, a, j);
    }
    assert d.kind in Types by {
      BarsAt(m, a / 3, a % 3);
      assert a == 3 * (a / 3) + a % 3;
    }
    KeysAt(m);
    BarHoverBars(s, d, j, k);
    BarHoverLegend(s, d, l);
  }

  /** Hovering a bar dims the bars it does not match on country and type,
      labels the ones it matches, and dims the tick labels of the other
      countries. */
  lemma BarHoverBars(s: Svg, d: Bar, j: int, k: int)
    requires s.Valid() && AtRest(s) && 0 <= j < |s.bars| && 0 <= k < |s.ticks|
    ensures var r := BarHover(s, d, true);
            && r.labels[j] == (if s.bars[j].country == d.country && s.bars[j].kind == d.kind then 1 else 0)
            && r.opacity[j] == (if s.bars[j].country == d.country && s.bars[j].kind == d.kind then 1.0 else 0.3)
            && r.tickOpacity[k] == (if s.ticks[k] != d.country then 0.3 else 1.0)
  {
    var h := XLabels(HighlightBars(s, d, true, true), d.country, true);
    assert BarHover(s, d, true) == EachLegend(h, d.kind, true, |s.legend|);
  }

  /** Hovering a bar whose type has a legend item dims the items of the
      other types and sets the text of its type's item in bold. */
  lemma BarHoverLegend(s: Svg, d: Bar, l: int)
    requires s.Valid() && AtRest(s) && 0 <= l < |s.legend| && d.kind in s.legend
    ensures var r := BarHover(s, d, true);
            && r.legendOpacity[l] == (if s.legend[l] != d.kind then 0.3 else 1.0)
            && r.legendWeight[l] == (if s.legend[l] == d.kind then Bold else Normal)
  {
    var h := XLabels(HighlightBars(s, d, true, true), d.country, true);
    EachLegendState(h, d.kind, true, |s.legend|);
    assert s.legend[..|s.legend|] == s.legend;
  }

  // ---------------------------------------------------------------
  // The component

  class MultiBarChartComponent {
    var dataSets: DataSets
    /** The chart under the component's element; empty until `createChart`. */
    var svg: Svg

    constructor()
      ensures dataSets == InitialDataSets && svg.Valid() && svg.bars == []
    {
      dataSets := InitialDataSets;
      svg := Svg([], [], [], [], [], [], [], []);
    }

    method NgOnInit()
      modifies this`dataSets
      ensures dataSets == Enrich(old(dataSets))
    {
      dataSets := Enrich(dataSets);
    }

    /** `createChart`, after `removeChart` emptied the element. */
    method CreateChart()
      modifies this`svg
      ensures svg == Draw(dataSets) && AtRest(svg)
    {
      svg := Draw(dataSets);
    }

    method HighlightBar(d: Bar, fCountry: bool, fType: bool)
      requires svg.Valid()
      modifies this`svg
      ensures svg == HighlightBars(old(svg), d, fCountry, fType)
    {
      svg := HighlightBars(svg, d, fCountry, fType);
    }

    method UnhighlightBar(d: Bar, fCountry: bool, fType: bool)
      requires svg.Valid()
      modifies this`svg
      ensures svg == UnhighlightBars(old(svg), d, fCountry, fType)
    {
      svg := UnhighlightBars(svg, d, fCountry, fType);
    }

    method HighlightXLabel(d: Bar)
      requires svg.Valid()
      modifies this`svg
      ensures svg == XLabels(old(svg), d.country, true)
    {
      svg := XLabels(svg, d.country, true);
    }

    method UnhighlightXLabel(d: Bar)
      requires svg.Valid()
      modifies this`svg
      ensures svg == XLabels(old(svg), d.country, false)
    {
      svg := XLabels(svg, d.country, false);
    }

    method HighlightLegend(kind: string)
      requires svg.Valid()
      modifies this`svg
      ensures svg == LegendItems(old(svg), kind, true)
    {
      svg := LegendItems(svg, kind, true);
    }

    method UnhighlightLegend(kind: string)
      requires svg.Valid()
      modifies this`svg
      ensures svg == LegendItems(old(svg), kind, false)
    {
      svg := LegendItems(svg, kind, false);
    }

    /** The `each` over the bar rects that `sel` picks. */
    method ForEachBar(sel: Bar -> bool, fCountry: bool, fType: bool, on: bool)
      requires svg.Valid()
      modifies this`svg
      ensures svg == EachBar(old(svg), sel, fCountry, fType, on, |old(svg).bars|)
    {
      ghost var s0 := svg;
      var bars := svg.bars;
      for j := 0 to |bars|
        invariant svg == EachBar(s0, sel, fCountry, fType, on, j)
      {
        if sel(bars[j]) {
          if on {
            HighlightBar(bars[j], fCountry, fType);
            HighlightXLabel(bars[j]);
          } else {
            UnhighlightBar(bars[j], fCountry, fType);
            UnhighlightXLabel(bars[j]);
          }
        }
      }
    }

    /** The `each` over the legend items of `kind`. */
    method ForEachLegend(kind: string, on: bool)
      requires svg.Valid()
      modifies this`svg
      ensures svg == EachLegend(old(svg), kind, on, |old(svg).legend|)
    {
      ghost var s0 := svg;
      var legend := svg.legend;
      for j := 0 to |legend|
        invariant svg == EachLegend(s0, kind, on, j)
      {
        if legend[j] == kind {
          if on {
            HighlightLegend(legend[j]);
          } else {
            UnhighlightLegend(legend[j]);
          }
        }
      }
    }

    method OnBarMouseOver(d: Bar)
      requires svg.Valid()
      modifies this`svg
      ensures svg == BarHover(old(svg), d, true)
    {
      HighlightBar(d, true, true);
      HighlightXLabel(d);
      ForEachLegend(d.kind, true);
    }

    method OnBarMouseOut(d: Bar)
      requires svg.Valid()
      modifies this`svg
      ensures svg == BarHover(old(svg), d, false)
    {
      UnhighlightBar(d, true, true);
      UnhighlightXLabel(d);
      ForEachLegend(d.kind, false);
    }

    method OnTickMouseOver(country: string)
      requires svg.Valid()
      modifies this`svg
      ensures svg == TickHover(old(svg), country, true)
    {
      ForEachBar(SameCountry(country), true, false, true);
    }

    method OnTickMouseOut(country: string)
      requires svg.Valid()
      modifies this`svg
      ensures svg == TickHover(old(svg), country, false)
    {
      ForEachBar(SameCountry(country), true, false, false);
    }

    method OnLegendMouseOver(kind: string)
      requires svg.Valid()
      modifies this`svg
      ensures svg == LegendHover(old(svg), kind, true)
    {
      ForEachBar(SameKind(kind), false, true, true);
      HighlightLegend(kind);
    }

    method OnLegendMouseOut(kind: string)
      requires svg.Valid()
      modifies this`svg
      ensures svg == LegendHover(old(svg), kind, false)
    {
      ForEachBar(SameKind(kind), false, true, false);
      UnhighlightLegend(kind);
    }
  }
}
