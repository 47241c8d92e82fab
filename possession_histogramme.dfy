/** The chart of average possession in the group stage: seven countries,
    their percentages and colours, drawn in non-increasing order. */
module PossessionHistogramme {
  import opened Wrappers
  import opened Seqs
  import opened JsSet
  import opened StableSort
  import opened PossessionChart

  const Percentages: seq<real> := [37.0, 66.6, 58.6, 54.0, 46.6, 43.3, 42.0]
  const Countries: seq<string> := ["Morroco", "Argentina", "France", "Croatia", "Senegal", "Tunisia", "Ghana"]
  const Colors: seq<string> := ["#e80284", "#03a0c7", "#03a0c7", "#03a0c7", "#DB8500", "#DB8500", "#DB8500"]

  /** `data` after `ngOnInit`. */
  function InitialData(): seq<Possession> {
    Zip(Countries, Percentages, Colors)
  }

  /** The countries after Morroco are listed from the most possession to
      the least, and Morroco has the least of all, so `createChart` moves
      Morroco from first to last and keeps the others in their order. */
  lemma SortedOrder()
    ensures SortByPossession(InitialData()) == InitialData()[1..] + [InitialData()[0]]
    ensures InitialData()[0].country == "Morroco"
  {
    InitialKeys();
    SortRotates(InitialData(), PercentageOf);
  }

  lemma InitialKeys()
    ensures var z := InitialData();
            && |z| == 7 && SortedDesc(z[1..], PercentageOf)
            && forall i :: 1 <= i < |z| ==> PercentageOf(z[0]) < PercentageOf(z[i])
  {
    assert Map(InitialData(), PercentageOf) == [37.0, 66.6, 58.6, 54.0, 46.6, 43.3, 42.0];
  }

  class PossessionHistogrammeComponent {
    var data: seq<Possession>
    var view: View

    constructor()
      ensures data == [] && view == Draw([], Tooltip(0.0, None))
    {
      data := [];
      view := Draw([], Tooltip(0.0, None));
    }

    method NgOnInit()
      modifies this`data
      ensures data == InitialData()
    {
      data := Zip(Countries, Percentages, Colors);
    }

    /** `createChart`: `data` sorted in place, then drawn. */
    method CreateChart()
      modifies this
      ensures data == SortByPossession(old(data))
      ensures view == Draw(data, old(view.tooltip))
    {
      data := SortByPossession(data);
      view := Draw(data, view.tooltip);
    }

    method RemoveChart()
      modifies this`view
      ensures view == Removed(old(view))
    {
      view := Removed(view);
    }

    /** The intersection observer's callback: the chart is drawn when it
        comes into view and removed when it leaves. */
    method OnIntersection(isIntersecting: bool)
      modifies this
      ensures isIntersecting ==> data == SortByPossession(old(data)) && view == Draw(data, old(view.tooltip))
      ensures !isIntersecting ==> data == old(data) && view == Removed(old(view))
    {
      if isIntersecting {
        CreateChart();
      } else {
        RemoveChart();
      }
    }

    /** `onResize`: the chart removed until the observer reports it again. */
    method OnResize()
      modifies this`view
      ensures view == Removed(old(view))
    {
      RemoveChart();
    }

    method OnMouseOver(d: Possession)
      requires view.Valid()
      modifies this`view
      ensures view == MouseOver(old(view), d)
    {
      view := MouseOver(view, d);
    }

    method OnMouseOut(d: Possession)
      requires view.Valid()
      modifies this`view
      ensures view == MouseOut(old(view), d)
    {
      view := MouseOut(view, d);
    }
  }
}
