/** The match-result index of the wins-and-losses chart: every parsed CSV
    row is kept in a flat list and filed under its country and phase in a
    nested object, and the chart's phases are the distinct phase keys. */
module WinsAndLosses {
  import opened Wrappers
  import opened JsObject
  import opened JsSet
  import opened Seqs

  /** A CSV cell as the CSV parser delivers it: absent (`undefined`) when
      the row is shorter than the header. */
  type Cell = Option<string>

  /** One parsed row of the results file. */
  datatype DataDetails = DataDetails(
    country: Cell, phase: Cell, result: Cell, date: Cell, display: Cell, score: Cell)

  /** What is kept about a match under its country and phase. */
  datatype PhaseDetails = PhaseDetails(result: Cell, date: Cell, display: Cell, score: Cell)

  type CountryMap = Entries<Entries<PhaseDetails>>

  /** The property key a cell becomes when it indexes an object:
      `undefined` is converted to the string "undefined". */
  function PropertyKey(c: Cell): (k: string)
    ensures c.Some? ==> k == c.value
    ensures c.None? ==> k == "undefined"
  {
    match c
    case Some(s) => s
    case None => "undefined"
  }

  function Details(row: DataDetails): PhaseDetails {
    PhaseDetails(row.result, row.date, row.display, row.score)
  }

  /** `countryMap[c][p]`, `None` when either level is missing. */
  function Lookup(m: CountryMap, c: string, p: string): (r: Option<PhaseDetails>)
    ensures r.Some? ==> c in Keys(m)
  {
    match Get(m, c)
    case None => None
    case Some(inner) => Get(inner, p)
  }

  /** The work the subscribe callback does on `countryMap` for one row:
      create the country's object when it is missing, then (over)write the
      row's phase in it. */
  function Record(m: CountryMap, row: DataDetails): CountryMap {
    var c := PropertyKey(row.country);
    var inner := Get(m, c).GetOr([]);
    Put(m, c, Put(inner, PropertyKey(row.phase), Details(row)))
  }

  /** `Record` applied to `rows` in order. */
  function RecordAll(m: CountryMap, rows: seq<DataDetails>): CountryMap
    decreases |rows|
  {
    if rows == [] then m else RecordAll(Record(m, rows[0]), rows[1..])
  }

  /** The details of the last row filed under country `c` and phase `p`. */
  function LastFor(rows: seq<DataDetails>, c: string, p: string): (r: Option<PhaseDetails>)
    ensures r.None? <==> forall i :: 0 <= i < |rows| ==>
      !(PropertyKey(rows[i].country) == c && PropertyKey(rows[i].phase) == p)
    ensures r.Some? ==>
      exists i :: 0 <= i < |rows|
        && PropertyKey(rows[i].country) == c && PropertyKey(rows[i].phase) == p
        && r.value == Details(rows[i])
        && forall j :: i < j < |rows| ==>
             !(PropertyKey(rows[j].country) == c && PropertyKey(rows[j].phase) == p)
  {
    if rows == [] then None
    else
      var later := LastFor(rows[1..], c, p);
      assert later.Some? ==>
        exists i :: 0 <= i < |rows|
          && PropertyKey(rows[i].country) == c && PropertyKey(rows[i].phase) == p
          && later.value == Details(rows[i])
          && forall j :: i < j < |rows| ==>
               !(PropertyKey(rows[j].country) == c && PropertyKey(rows[j].phase) == p)
      by {
        if later.Some? {
          var i :| 0 <= i < |rows[1..]|
            && PropertyKey(rows[1..][i].country) == c && PropertyKey(rows[1..][i].phase) == p
            && later.value == Details(rows[1..][i])
            && forall j :: i < j < |rows[1..]| ==>
                 !(PropertyKey(rows[1..][j].country) == c && PropertyKey(rows[1..][j].phase) == p);
          assert rows[i + 1] == rows[1..][i];
          forall j | i + 1 < j < |rows|
            ensures !(PropertyKey(rows[j].country) == c && PropertyKey(rows[j].phase) == p)
          {
            assert rows[j] == rows[1..][j - 1];
          }
        }
      }
      if later.Some? then later
      else if PropertyKey(rows[0].country) == c && PropertyKey(rows[0].phase) == p then
        assert forall j :: 0 < j < |rows| ==> rows[j] == rows[1..][j - 1];
        Some(Details(rows[0]))
      else
        assert forall j :: 0 < j < |rows| ==> rows[j] == rows[1..][j - 1];
        None
  }

  /** Filing one row changes exactly the entry for its own country and
      phase. */
  lemma RecordLookup(m: CountryMap, row: DataDetails, c: string, p: string)
    ensures Lookup(Record(m, row), c, p) ==
      if PropertyKey(row.country) == c && PropertyKey(row.phase) == p then Some(Details(row))
      else Lookup(m, c, p)
  {
    var rc := PropertyKey(row.country);
    var inner := Get(m, rc).GetOr([]);
    PutGet(m, rc, Put(inner, PropertyKey(row.phase), Details(row)), c);
    PutGet(inner, PropertyKey(row.phase), Details(row), p);
  }

  /** The last write wins: after filing `rows`, `countryMap[c][p]` holds the
      last row for `c` and `p`, or what it held before when there is none. */
  lemma {:induction false} RecordAllLastWins(m: CountryMap, rows: seq<DataDetails>, c: string, p: string)
    ensures Lookup(RecordAll(m, rows), c, p) ==
      match LastFor(rows, c, p)
      case Some(d) => Some(d)
      case None => Lookup(m, c, p)
    decreases |rows|
  {
    if rows != [] {
      RecordAllLastWins(Record(m, rows[0]), rows[1..], c, p);
      RecordLookup(m, rows[0], c, p);
    }
  }

  /** Filing rows never removes a country. */
  lemma {:induction false} RecordAllKeepsKeys(m: CountryMap, rows: seq<DataDetails>, k: string)
    requires k in Keys(m)
    ensures k in Keys(RecordAll(m, rows))
    decreases |rows|
  {
    if rows != [] {
      RecordAllKeepsKeys(Record(m, rows[0]), rows[1..], k);
    }
  }

  /** After filing `rows`, every row's country is a key of the map. */
  lemma {:induction false} RecordAllCountryKeys(m: CountryMap, rows: seq<DataDetails>, i: int)
    requires 0 <= i < |rows|
    ensures PropertyKey(rows[i].country) in Keys(RecordAll(m, rows))
    decreases |rows|
  {
    var m' := Record(m, rows[0]);
    assert RecordAll(m, rows) == RecordAll(m', rows[1..]);
    if i == 0 {
      RecordAllKeepsKeys(m', rows[1..], PropertyKey(rows[0].country));
    } else {
      TailAt(rows, i);
      RecordAllCountryKeys(m', rows[1..], i - 1);
    }
  }

  /** The phase keys of every country, concatenated in key order. */
  function AllPhaseKeys(m: CountryMap): seq<string>
    decreases |m|
  {
    if m == [] then [] else Keys(m[0].1) + AllPhaseKeys(m[1..])
  }

  /** A phase occurs in the concatenation exactly when some country has it. */
  lemma {:induction false} AllPhaseKeysMember(m: CountryMap, p: string)
    ensures p in AllPhaseKeys(m) <==> exists i :: 0 <= i < |m| && p in Keys(m[i].1)
    decreases |m|
  {
    if m != [] {
      AllPhaseKeysMember(m[1..], p);
      if p in AllPhaseKeys(m[1..]) {
        var i :| 0 <= i < |m[1..]| && p in Keys(m[1..][i].1);
        assert m[i + 1] == m[1..][i];
      }
      if exists i :: 1 <= i < |m| && p in Keys(m[i].1) {
        var i :| 1 <= i < |m| && p in Keys(m[i].1);
        assert m[1..][i - 1] == m[i];
      }
    }
  }

  /** The phases `extractPhases` collects, continuing from `acc`, for the
      countries of `m`. */
  function PhasesFrom(acc: seq<string>, m: CountryMap): seq<string>
    decreases |m|
  {
    if m == [] then acc
    else PhasesFrom(AddAll(acc, Keys(m[0].1)), m[1..])
  }

  /** `Array.from(phasesSet)` at the end of `extractPhases`. */
  function Phases(m: CountryMap): seq<string> {
    PhasesFrom([], m)
  }

  lemma {:induction false} PhasesFromAddAll(acc: seq<string>, m: CountryMap)
    ensures PhasesFrom(acc, m) == AddAll(acc, AllPhaseKeys(m))
    decreases |m|
  {
    if m != [] {
      PhasesFromAddAll(AddAll(acc, Keys(m[0].1)), m[1..]);
      AddAllAppend(acc, Keys(m[0].1), AllPhaseKeys(m[1..]));
    }
  }

  /** `extractPhases` returns each phase key present under any country,
      nothing else, and each once. */
  lemma PhasesExact(m: CountryMap)
    ensures NoDup(Phases(m))
    ensures forall p :: p in Phases(m) <==> exists i :: 0 <= i < |m| && p in Keys(m[i].1)
  {
    PhasesFromAddAll([], m);
    forall p ensures p in Phases(m) <==> exists i :: 0 <= i < |m| && p in Keys(m[i].1) {
      AllPhaseKeysMember(m, p);
    }
  }

  /** `extractPhases` lists the phases in the order in which they are
      first met, walking the countries and then their phases in key order. */
  lemma PhasesFirstSeenOrder(m: CountryMap, i: int, j: int)
    requires 0 <= i < j < |Phases(m)|
    ensures Phases(m)[i] in AllPhaseKeys(m) && Phases(m)[j] in AllPhaseKeys(m)
    ensures First(AllPhaseKeys(m), Phases(m)[i]) < First(AllPhaseKeys(m), Phases(m)[j])
  {
    PhasesFromAddAll([], m);
    AddAllFirstSeenOrder([], AllPhaseKeys(m), i, j);
    assert [] + AllPhaseKeys(m) == AllPhaseKeys(m);
  }

  class WinsAndLossesChart {
    var countryMap: CountryMap
    var dataMap: seq<DataDetails>

    /** An object never holds the same key twice. */
    ghost predicate Valid()
      reads this
    {
      UniqueKeys(countryMap)
    }

    constructor ()
      ensures Valid()
      ensures countryMap == [] && dataMap == []
    {
      countryMap := [];
      dataMap := [];
    }

    /** The subscribe callback of `createMap`, over the rows the CSV parser
        produced. */
    method CreateMap(rows: seq<DataDetails>)
      requires Valid()
      modifies this
      ensures Valid()
      ensures dataMap == old(dataMap) + rows
      ensures countryMap == RecordAll(old(countryMap), rows)
    {
      var i := 0;
      assert rows[i..] == rows;
      while i < |rows|
        invariant 0 <= i <= |rows|
        invariant Valid()
        invariant dataMap == old(dataMap) + rows[..i]
        invariant RecordAll(countryMap, rows[i..]) == RecordAll(old(countryMap), rows)
      {
        RecordAllCons(countryMap, rows, i);
        AppendTakeSnoc(old(dataMap), rows, i);
        TakeRow(rows[i]);
        i := i + 1;
      }
      assert rows[..i] == rows && rows[i..] == [];
    }

    /** The callback's work for one row: keep it, then file it. */
    method TakeRow(row: DataDetails)
      requires Valid()
      modifies this
      ensures Valid()
      ensures dataMap == old(dataMap) + [row]
      ensures countryMap == Record(old(countryMap), row)
    {
      dataMap := dataMap + [row];
      FileRow(row);
    }

    /** The `countryMap` part of the callback for one row. */
    method FileRow(row: DataDetails)
      requires Valid()
      modifies this`countryMap
      ensures Valid()
      ensures countryMap == Record(old(countryMap), row)
    {
      var c := PropertyKey(row.country);
      CreateThenWrite(countryMap, row);
      var entry := Put(Get(countryMap, c).GetOr([]), PropertyKey(row.phase), Details(row));
      if Get(countryMap, c).None? {
        PutUnique(countryMap, c, []);
        countryMap := Put(countryMap, c, []);
      }
      PutUnique(countryMap, c, entry);
      countryMap := Put(countryMap, c, entry);
    }

    /** `extractPhases`: the distinct phase keys over all countries. */
    method ExtractPhases() returns (phases: seq<string>)
      requires Valid()
      ensures phases == Phases(countryMap)
    {
      var phasesSet: seq<string> := [];
      var countries := Keys(countryMap);
      KeysAt(countryMap);
      var i := 0;
      while i < |countries|
        invariant 0 <= i <= |countries|
        invariant PhasesFrom(phasesSet, countryMap[i..]) == Phases(countryMap)
        invariant forall k :: 0 <= k < |countryMap| ==> countries[k] == countryMap[k].0
      {
        GetAt(countryMap, i);
        var ps := Keys(Get(countryMap, countries[i]).GetOr([]));
        ghost var start := phasesSet;
        var j := 0;
        while j < |ps|
          invariant 0 <= j <= |ps|
          invariant AddAll(phasesSet, ps[j..]) == AddAll(start, ps)
        {
          assert ps[j..][1..] == ps[j + 1..];
          phasesSet := Add(phasesSet, ps[j]);
          j := j + 1;
        }
        assert countryMap[i..][1..] == countryMap[i + 1..];
        i := i + 1;
      }
      phases := phasesSet;
    }
  }

  /** Creating the missing country object first and then writing the
      phase into it yields the same object as `Record`. */
  lemma CreateThenWrite(m: CountryMap, row: DataDetails)
    ensures var c := PropertyKey(row.country);
            var entry := Put(Get(m, c).GetOr([]), PropertyKey(row.phase), Details(row));
            Record(m, row) == if Get(m, c).None? then Put(Put(m, c, []), c, entry) else Put(m, c, entry)
  {
    var c := PropertyKey(row.country);
    PutPut(m, c, [], Put(Get(m, c).GetOr([]), PropertyKey(row.phase), Details(row)));
  }

  lemma RecordAllCons(m: CountryMap, rows: seq<DataDetails>, i: int)
    requires 0 <= i < |rows|
    ensures RecordAll(m, rows[i..]) == RecordAll(Record(m, rows[i]), rows[i + 1..])
  {
    assert rows[i..][1..] == rows[i + 1..];
  }
}
