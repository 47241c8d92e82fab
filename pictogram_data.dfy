/** Player records of the horizontal pictogram and how `loadPlayers` builds
    them from each team's semicolon-separated file. */
module PictogramData {
  import opened Wrappers
  import opened JsString
  import opened JsObject
  import opened JsSet
  import opened Seqs

  /** A property value of a player object. */
  datatype Field = Text(s: string) | Num(x: real) | Flag(b: bool) | Undefined

  /** A player object: its properties in enumeration order. */
  type Record = Entries<Field>

  /** `playerData`: each country's list of players. */
  type Rosters = Entries<seq<Record>>

  /** `player[k]`, `undefined` when the property is missing. */
  function Prop(r: Record, k: string): (f: Field)
    ensures f != Undefined ==> k in Keys(r)
  {
    Get(r, k).GetOr(Undefined)
  }

  /** JavaScript truthiness of a property value. */
  predicate Truthy(f: Field) {
    match f
    case Text(s) => s != ""
    case Num(x) => x != 0.0
    case Flag(b) => b
    case Undefined => false
  }

  /** `cell.replace('\r', '').trim()`. */
  function CleanCell(c: string): string {
    Trim(RemoveFirst(c, '\r'))
  }

  /** `row.split(';').map(cell => cell.replace('\r', '').trim())`. */
  function CleanCells(row: string): (cells: seq<string>)
    ensures |cells| == |Split(row, ';')|
    ensures forall i :: 0 <= i < |cells| ==> cells[i] == CleanCell(Split(row, ';')[i])
  {
    var parts := Split(row, ';');
    seq(|parts|, i requires 0 <= i < |parts| => CleanCell(parts[i]))
  }

  /** `rows.filter(row => row.trim() !== '')`. */
  function NonBlank(rows: seq<string>): (r: seq<string>)
    ensures |r| <= |rows|
    ensures forall x :: x in r <==> x in rows && !AllSpace(x)
  {
    if rows == [] then []
    else
      TrimEmptyIffAllSpace(rows[0]);
      assert forall x :: x in rows <==> x == rows[0] || x in rows[1..] by {
        assert rows == [rows[0]] + rows[1..];
      }
      (if Trim(rows[0]) != "" then [rows[0]] else []) + NonBlank(rows[1..])
  }

  /** `cells[k]`: `undefined` past the end of the row. */
  function CellAt(cells: seq<string>, k: int): Field {
    if 0 <= k < |cells| then Text(cells[k]) else Undefined
  }

  /** The object built by `headers.forEach((col, index) => o[col] =
      cells[index])` after its first `k` steps. */
  function FillUpTo(headers: seq<string>, cells: seq<string>, k: nat): Record
    requires k <= |headers|
  {
    if k == 0 then []
    else Put(FillUpTo(headers, cells, k - 1), headers[k - 1], CellAt(cells, k - 1))
  }

  /** One player object: the row's cells under their headers, then
      `Country`. */
  function MakeRecord(headers: seq<string>, cells: seq<string>, country: string): Record {
    Put(FillUpTo(headers, cells, |headers|), "Country", Text(country))
  }

  /** The last index below `k` at which `headers` holds `key`, or -1. */
  function LastIndexBefore(headers: seq<string>, key: string, k: nat): (r: int)
    requires k <= |headers|
    ensures -1 <= r < k
  {
    if k == 0 then -1
    else if headers[k - 1] == key then k - 1
    else LastIndexBefore(headers, key, k - 1)
  }

  /** `LastIndexBefore` finds `key` when it is there, and nothing after
      the index it finds holds `key`. */
  lemma {:induction false} LastIndexBeforeSpec(headers: seq<string>, key: string, k: nat)
    requires k <= |headers|
    ensures var r := LastIndexBefore(headers, key, k);
            && (r >= 0 ==> headers[r] == key)
            && (forall j :: r < j < k ==> headers[j] != key)
  {
    if k > 0 && headers[k - 1] != key {
      LastIndexBeforeSpec(headers, key, k - 1);
    }
  }

  /** After the first `k` steps, a key holds the cell of the last column
      so far that carries it; keys of no column so far are absent. */
  lemma {:induction false} FillUpToGet(headers: seq<string>, cells: seq<string>, k: nat, key: string)
    requires k <= |headers|
    ensures Get(FillUpTo(headers, cells, k), key) == CellFor(cells, LastIndexBefore(headers, key, k))
    decreases k, 1
  {
    if k == 0 {
      FillUpToGetEmpty(headers, cells, key);
    } else {
      FillUpToGetStep(headers, cells, k, key);
    }
  }

  lemma FillUpToGetEmpty(headers: seq<string>, cells: seq<string>, key: string)
    ensures Get(FillUpTo(headers, cells, 0), key) == CellFor(cells, LastIndexBefore(headers, key, 0))
  {
  }

  /** The cell of column `j`, if there is such a column. */
  function CellFor(cells: seq<string>, j: int): Option<Field> {
    if j < 0 then None else Some(CellAt(cells, j))
  }

  lemma {:induction false} FillUpToGetStep(headers: seq<string>, cells: seq<string>, k: nat, key: string)
    requires 0 < k <= |headers|
    ensures Get(FillUpTo(headers, cells, k), key) == CellFor(cells, LastIndexBefore(headers, key, k))
    decreases k, 0
  {
    FillUpToGet(headers, cells, k - 1, key);
    FillUpToGetNext(headers, cells, k, key);
  }

  lemma FillUpToGetNext(headers: seq<string>, cells: seq<string>, k: nat, key: string)
    requires 0 < k <= |headers|
    requires Get(FillUpTo(headers, cells, k - 1), key) == CellFor(cells, LastIndexBefore(headers, key, k - 1))
    ensures Get(FillUpTo(headers, cells, k), key) == CellFor(cells, LastIndexBefore(headers, key, k))
  {
    PutGet(FillUpTo(headers, cells, k - 1), headers[k - 1], CellAt(cells, k - 1), key);
    if headers[k - 1] == key {
      assert LastIndexBefore(headers, key, k) == k - 1;
    } else {
      assert LastIndexBefore(headers, key, k) == LastIndexBefore(headers, key, k - 1);
    }
  }

  lemma FillUpToStep(headers: seq<string>, cells: seq<string>, k: nat)
    requires k < |headers|
    ensures FillUpTo(headers, cells, k + 1) == Put(FillUpTo(headers, cells, k), headers[k], CellAt(cells, k))
  {
  }

  /** A player object holds its file's country under `Country`, and under
      every other header the cell of the last column with that header
      (`undefined` when the row is short); it has no other property. */
  lemma RecordFields(headers: seq<string>, cells: seq<string>, country: string, key: string)
    ensures Get(MakeRecord(headers, cells, country), key) ==
      if key == "Country" then Some(Text(country))
      else CellFor(cells, LastIndexBefore(headers, key, |headers|))
  {
    PutGet(FillUpTo(headers, cells, |headers|), "Country", Text(country), key);
    FillUpToGet(headers, cells, |headers|, key);
  }

  /** The properties of a player object are the distinct headers in
      first-seen order, then `Country` unless a header already is. */
  lemma {:induction false} FillUpToKeys(headers: seq<string>, cells: seq<string>, k: nat)
    requires k <= |headers|
    ensures Keys(FillUpTo(headers, cells, k)) == AddAll([], headers[..k])
  {
    if k > 0 {
      FillUpToKeys(headers, cells, k - 1);
      PutKeys(FillUpTo(headers, cells, k - 1), headers[k - 1], CellAt(cells, k - 1));
      AddAllTake(headers, k);
    }
  }

  lemma RecordKeys(headers: seq<string>, cells: seq<string>, country: string)
    ensures Keys(MakeRecord(headers, cells, country)) == Add(AddAll([], headers), "Country")
    ensures NoDup(Keys(MakeRecord(headers, cells, country)))
  {
    var fields := FillUpTo(headers, cells, |headers|);
    var ks := AddAll([], headers);
    assert Keys(fields) == ks by {
      FillUpToKeys(headers, cells, |headers|);
      assert headers[..|headers|] == headers;
    }
    PutKeys(fields, "Country", Text(country));
    AddNoDup(ks, "Country");
  }

  /** What `loadPlayers` makes of one team file: `None` when the file has
      no non-blank line (reading the header row then throws), otherwise
      one player per non-blank line after the header row. */
  function RosterRecords(text: string, country: string): (r: Option<seq<Record>>)
  {
    RowsRecords(NonBlank(Split(text, '\n')), country)
  }

  /** The same from the non-blank lines: the first is the header row. */
  function RowsRecords(rows: seq<string>, country: string): Option<seq<Record>> {
    if rows == [] then None
    else Some(Players(CleanCells(rows[0]), rows[1..], country))
  }

  /** The `for` loop over the lines after the header row: one player per
      line, in order (`PlayersAt`). */
  function Players(headers: seq<string>, lines: seq<string>, country: string): (ps: seq<Record>)
  {
    Map(lines, line => MakeRecord(headers, CleanCells(line), country))
  }

  /** Player `i` is built from line `i`, and there are as many players as
      lines. */
  lemma PlayersAt(headers: seq<string>, lines: seq<string>, country: string, i: int)
    requires 0 <= i < |lines|
    ensures |Players(headers, lines, country)| == |lines|
    ensures Players(headers, lines, country)[i] == MakeRecord(headers, CleanCells(lines[i]), country)
  {
  }

  /** Filtering leaves nothing exactly when every line is blank. */
  lemma NonBlankEmpty(rows: seq<string>)
    ensures NonBlank(rows) == [] <==> forall x :: x in rows ==> AllSpace(x)
  {
    var r := NonBlank(rows);
    if r != [] {
      assert r[0] in r;
    }
  }

  /** A team file yields no roster exactly when all its lines are blank. */
  lemma RosterNone(text: string, country: string)
    ensures RosterRecords(text, country).None? <==> forall x :: x in Split(text, '\n') ==> AllSpace(x)
  {
    NonBlankEmpty(Split(text, '\n'));
  }

  /** The file `loadPlayers` requests for a country. */
  function TeamFile(country: string): string {
    "assets/Teams/" + country + "_Team.csv"
  }

  /** What one iteration of `loadPlayers` makes of a country, given what
      each request returns (`None` for a failed request): `None` when the
      request fails or the file has no header row. */
  function FetchRoster(fetch: string -> Option<string>, country: string): Option<seq<Record>> {
    match fetch(TeamFile(country))
    case None => None
    case Some(text) => RosterRecords(text, country)
  }

  /** `loadPlayers` over `countries`, where `roster(c)` is what the
      iteration for `c` produces.  One `try` wraps the whole loop, so the
      first failure ends loading. */
  function LoadFrom(m: Rosters, countries: seq<string>, roster: string -> Option<seq<Record>>): Rosters
    decreases |countries|
  {
    if countries == [] then m
    else match roster(countries[0])
      case None => m
      case Some(players) => LoadFrom(Put(m, countries[0], players), countries[1..], roster)
  }

  /** The number of leading countries that load. */
  function Loaded(countries: seq<string>, roster: string -> Option<seq<Record>>): (n: nat)
    ensures n <= |countries|
    decreases |countries|
  {
    if countries == [] || roster(countries[0]).None? then 0
    else 1 + Loaded(countries[1..], roster)
  }

  /** Loading adds the countries before the first failure to the keys,
      as a `Set` adds them: a country already present keeps its place. */
  lemma {:induction false} LoadFromKeys(m: Rosters, countries: seq<string>, roster: string -> Option<seq<Record>>)
    ensures Keys(LoadFrom(m, countries, roster)) == AddAll(Keys(m), countries[..Loaded(countries, roster)])
    decreases |countries|
  {
    if Loaded(countries, roster) > 0 {
      var c, rest := countries[0], countries[1..];
      var m' := Put(m, c, roster(c).value);
      var n := Loaded(rest, roster);
      PutKeys(m, c, roster(c).value);
      LoadFromKeys(m', rest, roster);
      TakeCons(countries, n + 1);
      AddAllCons(Keys(m), c, rest[..n]);
    }
  }

  /** With distinct countries not loaded before, loading appends exactly
      the countries before the first failure, in order. */
  lemma LoadFromKeysFresh(m: Rosters, countries: seq<string>, roster: string -> Option<seq<Record>>)
    requires NoDup(Keys(m) + countries)
    ensures Keys(LoadFrom(m, countries, roster)) == Keys(m) + countries[..Loaded(countries, roster)]
  {
    LoadFromKeys(m, countries, roster);
    AddAllFreshPrefix(Keys(m), countries, Loaded(countries, roster));
  }

  /** Each country before the first failure gets what its own iteration
      produced. */
  lemma {:induction false} LoadFromGet(m: Rosters, countries: seq<string>, roster: string -> Option<seq<Record>>, i: int)
    requires NoDup(countries)
    requires 0 <= i < Loaded(countries, roster)
    ensures Get(LoadFrom(m, countries, roster), countries[i]) == roster(countries[i])
    decreases |countries|, 1
  {
    if i == 0 {
      LoadFromGetHead(m, countries, roster);
    } else {
      LoadFromGetTail(m, countries, roster, i);
    }
  }

  lemma LoadFromGetHead(m: Rosters, countries: seq<string>, roster: string -> Option<seq<Record>>)
    requires NoDup(countries)
    requires 0 < Loaded(countries, roster)
    ensures Get(LoadFrom(m, countries, roster), countries[0]) == roster(countries[0])
  {
    var c := countries[0];
    var players := roster(c).value;
    var m' := Put(m, c, players);
    NoDupTail(countries);
    LoadFromKeeps(m', countries[1..], roster, c);
    PutGet(m, c, players, c);
  }

  lemma {:induction false} LoadFromGetTail(m: Rosters, countries: seq<string>, roster: string -> Option<seq<Record>>, i: int)
    requires NoDup(countries)
    requires 0 < i < Loaded(countries, roster)
    ensures Get(LoadFrom(m, countries, roster), countries[i]) == roster(countries[i])
    decreases |countries|, 0
  {
    var c := countries[0];
    NoDupTail(countries);
    LoadFromGet(Put(m, c, roster(c).value), countries[1..], roster, i - 1);
    TailAt(countries, i);
  }

  /** Loading later countries leaves an earlier country's players alone. */
  lemma {:induction false} LoadFromKeeps(m: Rosters, countries: seq<string>, roster: string -> Option<seq<Record>>, k: string)
    requires k !in countries
    ensures Get(LoadFrom(m, countries, roster), k) == Get(m, k)
    decreases |countries|
  {
    if countries != [] && roster(countries[0]).Some? {
      var c := countries[0];
      assert k != c;
      PutGet(m, c, roster(c).value, k);
      LoadFromKeeps(Put(m, c, roster(c).value), countries[1..], roster, k);
    }
  }
}
