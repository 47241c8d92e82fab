/** The waffle charts as drawn, and what the pointer does to them: the
    opacity of every rect, the tooltip, and `previousGroup`, the entry the
    pointer last left, which lets a mouseover skip dimming a chart that is
    already highlighted for its group. */
module TouchesHover {
  import opened Wrappers
  import opened Seqs
  import opened TouchesWaffle

  /** What `getTipContent` writes: the country, the key and its percentage. */
  datatype Tip = Tip(country: string, key: string, percentage: real)

  /** The `#tooltip` element: its opacity and the content last written. */
  datatype Tooltip = Tooltip(opacity: real, content: Option<Tip>)

  /** The drawn charts, one svg per country in `data` order: the country,
      the entries its squares are bound to, and the keys of its legend
      (only Morroco's svg has one). */
  datatype Page = Page(countries: seq<string>, squares: seq<seq<Entry>>, legends: seq<seq<string>>) {
    predicate Valid() {
      && |countries| == |squares| == |legends|
      && forall r, i :: 0 <= r < |squares| && 0 <= i < |squares[r]| ==> squares[r][i].row == r
    }
  }

  function CountryName(d: Touches): string {
    d.country
  }

  /** The legend `drawWaffle` adds to a country's svg. */
  function Legend(d: Touches): seq<string> {
    if d.country == "Morroco" then Keys else []
  }

  /** The page `drawWaffle` draws for `data`: svg `r` holds the expansion
      of `data[r]`, and every square's entry belongs to its own svg. */
  function DrawPage(data: seq<Touches>): (p: Page)
    ensures p.Valid() && |p.squares| == |data|
    ensures forall r :: 0 <= r < |data| ==> |p.squares[r]| == Total(data[r])
  {
    Page(Map(data, CountryName),
         seq(|data|, r requires 0 <= r < |data| => Expansion(data[r], r)),
         seq(|data|, r requires 0 <= r < |data| => Legend(data[r])))
  }

  function KeyOf(e: Entry): string {
    e.key
  }

  /** The keys in the class names (`square-<key>`) of svg `r`'s rects:
      its squares', then its legend's. */
  function Labels(p: Page, r: nat): seq<string>
    requires r < |p.squares| && r < |p.legends|
  {
    Map(p.squares[r], KeyOf) + p.legends[r]
  }

  /** The hover state: `previousGroup`, the opacity of each svg's rects in
      `Labels` order, and the tooltip. */
  datatype Hover = Hover(previousGroup: Option<Entry>, opacity: seq<seq<real>>, tooltip: Tooltip)

  /** One opacity per rect of the page. */
  predicate Fits(p: Page, h: Hover) {
    && p.Valid()
    && |h.opacity| == |p.squares|
    && forall r :: 0 <= r < |p.squares| ==> |h.opacity[r]| == |Labels(p, r)|
  }

  /** A rect with no `opacity` attribute is drawn opaque. */
  function Ones(n: nat): seq<real> {
    seq(n, _ => 1.0)
  }

  /** The opacities right after drawing. */
  function Unset(p: Page): (o: seq<seq<real>>)
    requires p.Valid()
    ensures |o| == |p.squares|
    ensures forall r :: 0 <= r < |o| ==> o[r] == Ones(|Labels(p, r)|)
  {
    seq(|p.squares|, r requires 0 <= r < |p.squares| => Ones(|Labels(p, r)|))
  }

  function Any(): string -> bool {
    _ => true
  }

  function HasLabel(key: string): string -> bool {
    (s: string) => s == key
  }

  /** A svg highlighted for `key`: its rects of that key opaque, all
      others at half opacity. */
  function Highlighted(labels: seq<string>, key: string): (o: seq<real>)
    ensures |o| == |labels|
  {
    seq(|labels|, i requires 0 <= i < |labels| => if labels[i] == key then 1.0 else 0.5)
  }

  /** `selectAll('rect').attr('opacity', 0.5)` then
      `selectAll('.square-<key>').attr('opacity', 1)` on one svg: whatever
      the opacities were, the svg ends up highlighted for `key`. */
  function Highlight(labels: seq<string>, vs: seq<real>, key: string): (o: seq<real>)
    requires |vs| == |labels|
    ensures o == Highlighted(labels, key)
  {
    SetWhere(labels, SetWhere(labels, vs, Any(), 0.5), HasLabel(key), 1.0)
  }

  /** `selectAll('rect').attr('opacity', 1)` on one svg: every rect opaque. */
  function Reset(labels: seq<string>, vs: seq<real>): (o: seq<real>)
    requires |vs| == |labels|
    ensures o == Ones(|labels|)
  {
    SetWhere(labels, vs, Any(), 1.0)
  }

  /** The tooltip showing entry `d` of its country. */
  function Show(p: Page, d: Entry, opacity: real): Tooltip
    requires d.row < |p.countries|
  {
    Tooltip(opacity, Some(Tip(p.countries[d.row], d.key, d.percentage)))
  }

  // ---------------------------------------------------------------
  // The handlers

  /** A square's `mouseover`: unless `d` is `previousGroup`, its svg is
      highlighted for `d`'s key; the tooltip shows `d`. */
  function SquareOver(p: Page, h: Hover, d: Entry): (r: Hover)
    requires Fits(p, h) && d.row < |p.squares|
    ensures Fits(p, r) && r.previousGroup == h.previousGroup
    ensures r.tooltip == Show(p, d, 1.0)
    ensures h.previousGroup != Some(d) ==> r.opacity[d.row] == Highlighted(Labels(p, d.row), d.key)
    ensures h.previousGroup == Some(d) ==> r.opacity == h.opacity
    ensures forall row :: 0 <= row < |p.squares| && row != d.row ==> r.opacity[row] == h.opacity[row]
  {
    var o := if h.previousGroup != Some(d) then h.opacity[d.row := Highlight(Labels(p, d.row), h.opacity[d.row], d.key)] else h.opacity;
    h.(opacity := o, tooltip := Show(p, d, 1.0))
  }

  /** A square's `mouseleave`: `d` becomes `previousGroup` and the tooltip
      is hidden; no opacity changes. */
  function SquareLeave(p: Page, h: Hover, d: Entry): (r: Hover)
    requires Fits(p, h) && d.row < |p.squares|
    ensures Fits(p, r) && r.previousGroup == Some(d) && r.opacity == h.opacity
    ensures r.tooltip == Show(p, d, 0.0)
  {
    h.(previousGroup := Some(d), tooltip := Show(p, d, 0.0))
  }

  /** A legend entry's `mouseenter`: its svg is highlighted for `key`. */
  function LegendEnter(p: Page, h: Hover, row: nat, key: string): (r: Hover)
    requires Fits(p, h) && row < |p.squares|
    ensures Fits(p, r) && r.previousGroup == h.previousGroup && r.tooltip == h.tooltip
    ensures r.opacity[row] == Highlighted(Labels(p, row), key)
    ensures forall other :: 0 <= other < |p.squares| && other != row ==> r.opacity[other] == h.opacity[other]
  {
    h.(opacity := h.opacity[row := Highlight(Labels(p, row), h.opacity[row], key)])
  }

  /** A legend entry's `mouseleave` as written: every rect of its svg is
      made opaque, and `previousGroup` is left as it was. */
  function LegendLeaveAsWritten(p: Page, h: Hover, row: nat): (r: Hover)
    requires Fits(p, h) && row < |p.squares|
    ensures Fits(p, r) && r.previousGroup == h.previousGroup && r.tooltip == h.tooltip
    ensures r.opacity[row] == Ones(|Labels(p, row)|)
    ensures forall other :: 0 <= other < |p.squares| && other != row ==> r.opacity[other] == h.opacity[other]
  {
    h.(opacity := h.opacity[row := Reset(Labels(p, row), h.opacity[row])])
  }

  /** A legend entry's `mouseleave`, corrected: as written, and
      `previousGroup` is cleared as the svg's own `mouseleave` does, since
      no group is highlighted any more. */
  function LegendLeave(p: Page, h: Hover, row: nat): (r: Hover)
    requires Fits(p, h) && row < |p.squares|
    ensures Fits(p, r) && r.previousGroup == None && r.tooltip == h.tooltip
    ensures r.opacity[row] == Ones(|Labels(p, row)|)
    ensures forall other :: 0 <= other < |p.squares| && other != row ==> r.opacity[other] == h.opacity[other]
  {
    LegendLeaveAsWritten(p, h, row).(previousGroup := None)
  }

  /** A svg's `mouseleave`: `previousGroup` takes the svg's datum, which
      is undefined, and every rect of every chart is made opaque. */
  function SvgLeave(p: Page, h: Hover): (r: Hover)
    requires Fits(p, h)
    ensures Fits(p, r) && r.previousGroup == None && r.tooltip == h.tooltip
    ensures forall row :: 0 <= row < |p.squares| ==> r.opacity[row] == Ones(|Labels(p, row)|)
  {
    h.(previousGroup := None,
       opacity := seq(|h.opacity|, row requires 0 <= row < |h.opacity| => Reset(Labels(p, row), h.opacity[row])))
  }

  // ---------------------------------------------------------------
  // Gestures: the pointer entering and then leaving one element

  datatype Gesture = VisitSquare(d: Entry) | VisitLegend(row: nat, key: string) | LeaveSvg

  /** The gestures the page allows: onto a drawn square, onto an entry of
      a drawn legend, or out of a svg. */
  predicate OnPage(p: Page, g: Gesture) {
    match g
    case VisitSquare(d) => d.row < |p.squares| && d in p.squares[d.row]
    case VisitLegend(row, key) => row < |p.legends| && key in p.legends[row]
    case LeaveSvg => true
  }

  predicate AllOnPage(p: Page, gs: seq<Gesture>) {
    forall i :: 0 <= i < |gs| ==> OnPage(p, gs[i])
  }

  function Perform(p: Page, h: Hover, g: Gesture): (r: Hover)
    requires Fits(p, h) && OnPage(p, g)
    ensures Fits(p, r)
  {
    match g
    case VisitSquare(d) => SquareLeave(p, SquareOver(p, h, d), d)
    case VisitLegend(row, key) => LegendLeave(p, LegendEnter(p, h, row, key), row)
    case LeaveSvg => SvgLeave(p, h)
  }

  function PerformAsWritten(p: Page, h: Hover, g: Gesture): (r: Hover)
    requires Fits(p, h) && OnPage(p, g)
    ensures Fits(p, r)
  {
    match g
    case VisitSquare(d) => SquareLeave(p, SquareOver(p, h, d), d)
    case VisitLegend(row, key) => LegendLeaveAsWritten(p, LegendEnter(p, h, row, key), row)
    case LeaveSvg => SvgLeave(p, h)
  }

  function Run(p: Page, h: Hover, gs: seq<Gesture>): (r: Hover)
    requires Fits(p, h) && AllOnPage(p, gs)
    ensures Fits(p, r)
    decreases |gs|
  {
    if gs == [] then h else Run(p, Perform(p, h, gs[0]), gs[1..])
  }

  /** What `previousGroup` is for: when it names an entry, that entry's
      svg is highlighted for the entry's key. */
  predicate Consistent(p: Page, h: Hover) {
    && Fits(p, h)
    && (h.previousGroup.Some? ==>
          var e := h.previousGroup.value;
          e.row < |p.squares| && h.opacity[e.row] == Highlighted(Labels(p, e.row), e.key))
  }

  // ---------------------------------------------------------------
  // Properties

  /** Right after drawing, nothing is highlighted and no group is stored. */
  lemma DrawnConsistent(data: seq<Touches>, tooltip: Tooltip)
    ensures Consistent(DrawPage(data), Hover(None, Unset(DrawPage(data)), tooltip))
  {
  }

  /** Every gesture keeps `previousGroup` truthful. */
  lemma PerformConsistent(p: Page, h: Hover, g: Gesture)
    requires Consistent(p, h) && OnPage(p, g)
    ensures Consistent(p, Perform(p, h, g))
  {
    if g.VisitSquare? {
      var d := g.d;
      var h1 := SquareOver(p, h, d);
      assert h1.opacity[d.row] == Highlighted(Labels(p, d.row), d.key);
    }
  }

  lemma {:induction false} RunConsistent(p: Page, h: Hover, gs: seq<Gesture>)
    requires Consistent(p, h) && AllOnPage(p, gs)
    ensures Consistent(p, Run(p, h, gs))
    decreases |gs|
  {
    if gs != [] {
      PerformConsistent(p, h, gs[0]);
      assert AllOnPage(p, gs[1..]) by {
        forall i | 0 <= i < |gs[1..]|
          ensures OnPage(p, gs[1..][i])
        {
          assert gs[1..][i] == gs[i + 1];
        }
      }
      RunConsistent(p, Perform(p, h, gs[0]), gs[1..]);
    }
  }

  /** Whatever the pointer did before, moving onto a square highlights
      its svg for the square's key and shows its tooltip, and leaves the
      other charts alone. */
  lemma HoverHighlights(p: Page, h: Hover, gs: seq<Gesture>, d: Entry)
    requires Consistent(p, h) && AllOnPage(p, gs) && OnPage(p, VisitSquare(d))
    ensures var before := Run(p, h, gs);
            var after := SquareOver(p, before, d);
            && after.opacity[d.row] == Highlighted(Labels(p, d.row), d.key)
            && after.tooltip == Show(p, d, 1.0)
            && forall row :: 0 <= row < |p.squares| && row != d.row ==> after.opacity[row] == before.opacity[row]
  {
    RunConsistent(p, h, gs);
  }

  /** As written, a square, then its svg's legend, then the same square
      again: the legend's `mouseleave` made every rect opaque but left
      `previousGroup` naming the square's entry, so the second mouseover
      skips highlighting and the svg stays all opaque although it has
      rects of another key. */
  lemma StaleGroupAsWritten(p: Page, h: Hover, d: Entry, key: string, j: nat)
    requires Consistent(p, h) && OnPage(p, VisitSquare(d)) && OnPage(p, VisitLegend(d.row, key))
    requires j < |Labels(p, d.row)| && Labels(p, d.row)[j] != d.key
    ensures var h1 := PerformAsWritten(p, PerformAsWritten(p, h, VisitSquare(d)), VisitLegend(d.row, key));
            && !Consistent(p, h1)
            && SquareOver(p, h1, d).opacity[d.row] == Ones(|Labels(p, d.row)|)
            && SquareOver(p, h1, d).opacity[d.row] != Highlighted(Labels(p, d.row), d.key)
  {
    var labels := Labels(p, d.row);
    var h1 := PerformAsWritten(p, PerformAsWritten(p, h, VisitSquare(d)), VisitLegend(d.row, key));
    assert h1.previousGroup == Some(d);
    assert Highlighted(labels, d.key)[j] == 0.5;
    assert Ones(|labels|)[j] == 1.0;
  }

  /** The same gestures on Morroco's chart as drawn: its first square is a
      defense square, the legend has a `defense` entry, and the chart has
      middle squares. */
  lemma StaleGroupOnMorroco()
    ensures var p := DrawPage(Data);
            var d := Square(Data[0], 0, 0);
            && OnPage(p, VisitSquare(d)) && OnPage(p, VisitLegend(0, "defense"))
            && var h1 := PerformAsWritten(p, PerformAsWritten(p, Hover(None, Unset(p), Tooltip(0.0, None)), VisitSquare(d)), VisitLegend(0, "defense"));
               SquareOver(p, h1, d).opacity[0] != Highlighted(Labels(p, 0), "defense")
  {
    var p := DrawPage(Data);
    var d := Square(Data[0], 0, 0);
    var h := Hover(None, Unset(p), Tooltip(0.0, None));
    DrawnConsistent(Data, Tooltip(0.0, None));
    ExpansionAt(Data[0], 0, 0);
    ExpansionAt(Data[0], 0, 94);
    assert p.squares[0] == Expansion(Data[0], 0);
    assert p.squares[0][0] == d;
    assert Labels(p, 0)[94] == "middle";
    assert p.legends[0] == Keys;
    StaleGroupAsWritten(p, h, d, "defense", 94);
  }

  // ---------------------------------------------------------------
  // The component

  class TouchesComponent {
    var data: seq<Touches>
    var page: Page
    var hover: Hover

    constructor(tooltip: Tooltip)
      ensures data == Data && page == Page([], [], []) && hover == Hover(None, [], tooltip)
    {
      data := Data;
      page := Page([], [], []);
      hover := Hover(None, [], tooltip);
    }

    /** `ngAfterViewInit`: one svg per country, then `drawWaffle`. */
    method NgAfterViewInit()
      modifies this`page, this`hover
      ensures page == DrawPage(data)
      ensures hover == old(hover).(opacity := Unset(page))
    {
      DrawWaffle();
    }

    /** `drawWaffle`: each country's squares from `Expand`, and Morroco's
      legend. */
    method DrawWaffle()
      modifies this`page, this`hover
      ensures page == DrawPage(data)
      ensures hover == old(hover).(opacity := Unset(page))
    {
      var countries: seq<string> := [];
      var squares: seq<seq<Entry>> := [];
      var legends: seq<seq<string>> := [];
      for i := 0 to |data|
        invariant |countries| == |squares| == |legends| == i
        invariant hover == old(hover)
        invariant forall r :: 0 <= r < i ==> countries[r] == data[r].country
        invariant forall r :: 0 <= r < i ==> squares[r] == Expansion(data[r], r)
        invariant forall r :: 0 <= r < i ==> legends[r] == Legend(data[r])
      {
        var rects, totalCount := Expand(data[i], i);
        countries := countries + [data[i].country];
        squares := squares + [rects];
        legends := legends + [if data[i].country == "Morroco" then Keys else []];
      }
      page := Page(countries, squares, legends);
      hover := hover.(opacity := Unset(page));
    }

    method OnSquareOver(d: Entry)
      requires Fits(page, hover) && d.row < |page.squares|
      modifies this`hover
      ensures hover == SquareOver(page, old(hover), d)
    {
      hover := SquareOver(page, hover, d);
    }

    method OnSquareLeave(d: Entry)
      requires Fits(page, hover) && d.row < |page.squares|
      modifies this`hover
      ensures hover == SquareLeave(page, old(hover), d)
    {
      hover := SquareLeave(page, hover, d);
    }

    method OnLegendEnter(row: nat, key: string)
      requires Fits(page, hover) && row < |page.squares|
      modifies this`hover
      ensures hover == LegendEnter(page, old(hover), row, key)
    {
      hover := LegendEnter(page, hover, row, key);
    }

    method OnLegendLeave(row: nat)
      requires Fits(page, hover) && row < |page.squares|
      modifies this`hover
      ensures hover == LegendLeave(page, old(hover), row)
    {
      hover := LegendLeave(page, hover, row);
    }

    method OnSvgLeave()
      requires Fits(page, hover)
      modifies this`hover
      ensures hover == SvgLeave(page, old(hover))
    {
      hover := SvgLeave(page, hover);
    }
  }
}
