/** The chart of average possession in the knockout stage: the four
    semi-finalists, their percentages and colours, drawn in non-increasing
    order. */
module PossessionTopFour {
  import opened Wrappers
  import opened Seqs
  import opened StableSort
  import opened PossessionChart

  const CountriesTop4: seq<string> := ["Morroco", "Argentina", "France", "Croatia"]
  const ColorOfTop4: seq<string> := ["#e80284", "#4517EE", "#4517EE", "#4517EE"]
  const PossessionDataTop3: seq<real> := [39.0, 51.3, 56.5, 54.3]

  /** `data2` after `ngOnInit`. */
  function InitialData(): seq<Possession> {
    Zip(CountriesTop4, PossessionDataTop3, ColorOfTop4)
  }

  /** `createChart` draws France, Croatia, Argentina, then Morroco. */
  lemma SortedOrder()
    ensures var z := InitialData();
            SortByPossession(z) == [z[2], z[3], z[1], z[0]]
    ensures Map(InitialData(), CountryOf) == ["Morroco", "Argentina", "France", "Croatia"]
  {
    InitialKeys();
    SortLastTwo(InitialData(), PercentageOf);
    ZipInverse(CountriesTop4, PossessionDataTop3, ColorOfTop4);
  }

  /** A sequence in order from its third element on, whose second element
      is below every later one and whose first is below every other, sorts
      into its elements from the third on, then the second, then the first. */
  lemma SortLastTwo<T>(z: seq<T>, key: T -> real)
    requires |z| >= 2 && SortedDesc(z[2..], key)
    requires forall i :: 2 <= i < |z| ==> key(z[1]) < key(z[i])
    requires forall i :: 1 <= i < |z| ==> key(z[0]) < key(z[i])
    ensures SortDesc(z, key) == z[2..] + [z[1], z[0]]
  {
    Shuffle(z);
    SortRotates(z[1..], key);
    var rest := z[2..] + [z[1]];
    assert forall i :: 0 <= i < |rest| ==> key(z[0]) < key(rest[i]) by {
      forall i | 0 <= i < |rest| ensures key(z[0]) < key(rest[i]) {
        if i < |rest| - 1 {
          assert rest[i] == z[i + 2];
        }
      }
    }
    InsertLast(z[0], rest, key);
    SortCons(z, key);
  }

  /** The sequence identities `SortLastTwo` rests on. */
  lemma Shuffle<T>(z: seq<T>)
    requires |z| >= 2
    ensures z[1..][1..] == z[2..] && z[1..][0] == z[1]
    ensures z[1..][1..] + [z[1..][0]] == z[2..] + [z[1]]
    ensures (z[2..] + [z[1]]) + [z[0]] == z[2..] + [z[1], z[0]]
  {
  }

  lemma InitialKeys()
    ensures var z := InitialData();
            && |z| == 4 && SortedDesc(z[2..], PercentageOf)
            && (forall i :: 2 <= i < |z| ==> PercentageOf(z[1]) < PercentageOf(z[i]))
            && (forall i :: 1 <= i < |z| ==> PercentageOf(z[0]) < PercentageOf(z[i]))
            && z[2..] + [z[1], z[0]] == [z[2], z[3], z[1], z[0]]
  {
    assert Map(InitialData(), PercentageOf) == [39.0, 51.3, 56.5, 54.3];
  }

  class PossessionTopFourComponent {
    var data: seq<Possession>
    var view: View

    constructor()
      ensures data == [] && view == Draw([], Tooltip(0.0, None))
    {
      data := [];
      view := Draw([], Tooltip(0.0, None));
    }

    method NgOnInit()
      modifies this`data
      ensures data == InitialData()
    {
      data := Zip(CountriesTop4, PossessionDataTop3, ColorOfTop4);
    }

    /** `createChart`: `data` sorted in place, then drawn. */
    method CreateChart()
      modifies this
      ensures data == SortByPossession(old(data))
      ensures view == Draw(data, old(view.tooltip))
    {
      data := SortByPossession(data);
      view := Draw(data, view.tooltip);
    }

    method RemoveChart()
      modifies this`view
      ensures view == Removed(old(view))
    {
      view := Removed(view);
    }

    /** The intersection observer's callback: the chart is drawn when it
        comes into view and removed when it leaves. */
    method OnIntersection(isIntersecting: bool)
      modifies this
      ensures isIntersecting ==> data == SortByPossession(old(data)) && view == Draw(data, old(view.tooltip))
      ensures !isIntersecting ==> data == old(data) && view == Removed(old(view))
    {
      if isIntersecting {
        CreateChart();
      } else {
        RemoveChart();
      }
    }

    /** `onResize`: the chart removed until the observer reports it again. */
    method OnResize()
      modifies this`view
      ensures view == Removed(old(view))
    {
      RemoveChart();
    }

    method OnMouseOver(d: Possession)
      requires view.Valid()
      modifies this`view
      ensures view == MouseOver(old(view), d)
    {
      view := MouseOver(view, d);
    }

    method OnMouseOut(d: Possession)
      requires view.Valid()
      modifies this`view
      ensures view == MouseOut(old(view), d)
    {
      view := MouseOut(view, d);
    }
  }
}
