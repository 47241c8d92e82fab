/** The horizontal pictogram component: the state `ngOnInit` builds
    (`playerData`, `top5Data`) and the scroll toggle the wheel listener
    drives.  HTTP requests are a function `fetch` from a path to the file's
    text, `None` for a request that fails. */
module PictogramComponent {
  import opened Wrappers
  import opened JsString
  import opened JsObject
  import opened JsSet
  import opened Seqs
  import opened PictogramData
  import opened PictogramClean
  import opened PictogramTop5
  import opened PictogramOrder
  import T = PictogramToggle

  /** The countries whose team files are loaded, in order. */
  const Countries: seq<string> := ["Morocco", "Argentina", "France", "Croatia", "Senegal", "Tunisia", "Ghana"]

  /** What the iteration of `loadPlayers` for a country produces. */
  function TeamRoster(fetch: string -> Option<string>): string -> Option<seq<Record>> {
    c => FetchRoster(fetch, c)
  }

  lemma CountriesDistinct()
    ensures NoDup(Countries)
  {
  }

  /** The rewrites of `ngOnInit` after loading: positions, ages and
      clubs, each stopping the rest when it throws, then the ordering. */
  function CleanAll(loaded: Rosters, top5: seq<string>, sanitize: string -> string): Rosters {
    var pos := UpdateRosters(loaded, CleanPosRecord);
    if !pos.1 then pos.0
    else
      var age := UpdateRosters(pos.0, CleanAgeRecord);
      if !age.1 then age.0
      else
        var club := UpdateRosters(age.0, r => CleanClubRecord(r, top5, sanitize));
        if !club.1 then club.0
        else OrderPlayers(club.0)
  }

  /** `playerData` after `ngOnInit`. */
  function InitPlayers(m: Rosters, fetch: string -> Option<string>, sanitize: string -> string): Rosters {
    CleanAll(LoadFrom(m, Countries, TeamRoster(fetch)), Top5Data(fetch, Championships, sanitize), sanitize)
  }

  /** The rewrites and the ordering keep the countries, in their order. */
  lemma CleanAllKeys(loaded: Rosters, top5: seq<string>, sanitize: string -> string)
    ensures Keys(CleanAll(loaded, top5, sanitize)) == Keys(loaded)
  {
    var pos := UpdateRosters(loaded, CleanPosRecord);
    UpdateRostersSpec(loaded, CleanPosRecord);
    if pos.1 {
      var age := UpdateRosters(pos.0, CleanAgeRecord);
      UpdateRostersSpec(pos.0, CleanAgeRecord);
      if age.1 {
        var f := r => CleanClubRecord(r, top5, sanitize);
        var club := UpdateRosters(age.0, f);
        UpdateRostersSpec(age.0, f);
        if club.1 {
          OrderPlayersSpec(club.0);
        }
      }
    }
  }

  /** Starting from no data, `ngOnInit` leaves one entry per country up to
      the first whose file fails to load, in the order of `countries`. */
  lemma InitPlayersKeys(m: Rosters, fetch: string -> Option<string>, sanitize: string -> string)
    requires Keys(m) == []
    ensures Keys(InitPlayers(m, fetch, sanitize)) ==
      Countries[..Loaded(Countries, TeamRoster(fetch))]
  {
    var roster := TeamRoster(fetch);
    var n := Loaded(Countries, roster);
    CountriesDistinct();
    assert Keys(m) + Countries == Countries;
    LoadFromKeysFresh(m, Countries, roster);
    assert Keys(m) + Countries[..n] == Countries[..n];
    CleanAllKeys(LoadFrom(m, Countries, roster), Top5Data(fetch, Championships, sanitize), sanitize);
  }

  class HorizontalPictogram {
    var playerData: Rosters
    var top5Data: seq<string>
    /** `toggle.checked` */
    var checked: bool
    var scrollingDown: bool
    var transitionDone: bool
    /** Where the last started circle transition is taking the circles. */
    var layout: T.Layout

    function Toggle(): T.ToggleState
      reads this
    {
      T.ToggleState(checked, scrollingDown, transitionDone, layout)
    }

    constructor()
      ensures playerData == [] && top5Data == []
      ensures Toggle() == T.Initial
    {
      playerData := [];
      top5Data := [];
      checked := false;
      scrollingDown := false;
      transitionDone := true;
      layout := T.ByClub;
    }

    // -------------------------------------------------------------
    // ngOnInit

    method NgOnInit(fetch: string -> Option<string>, sanitize: string -> string)
      modifies this`playerData, this`top5Data
      ensures playerData == InitPlayers(old(playerData), fetch, sanitize)
      ensures top5Data == Top5Data(fetch, Championships, sanitize)
    {
      LoadPlayers(fetch);
      LoadChampionships(fetch, sanitize);
      var ok := CleanPos();
      if !ok { return; }
      ok := CleanAge();
      if !ok { return; }
      ok := CleanClub(sanitize);
      if !ok { return; }
      OrderPlayersInPlace();
    }

    /** `loadPlayers`: one `try` around the whole loop, so the first failed
        request or file without a header row ends it. */
    method LoadPlayers(fetch: string -> Option<string>)
      modifies this`playerData
      ensures playerData == LoadFrom(old(playerData), Countries, TeamRoster(fetch))
    {
      LoadTeams(Countries, fetch);
    }

    /** The loop of `loadPlayers` over the given countries. */
    method LoadTeams(countries: seq<string>, fetch: string -> Option<string>)
      modifies this`playerData
      ensures playerData == LoadFrom(old(playerData), countries, TeamRoster(fetch))
    {
      var roster := TeamRoster(fetch);
      var k := 0;
      while k < |countries|
        invariant 0 <= k <= |countries|
        invariant LoadFrom(playerData, countries[k..], roster) == LoadFrom(old(playerData), countries, roster)
      {
        var country := countries[k];
        var players := ReadTeam(fetch, country);
        assert players == roster(country);
        if players.None? {
          LoadFromStop(playerData, countries, roster, k);
          return;
        }
        // The entry is created empty and the players pushed onto it; no
        // step in between can throw.
        LoadFromNext(playerData, countries, roster, k, players.value);
        playerData := Put(playerData, country, players.value);
        k := k + 1;
      }
      assert countries[|countries|..] == [];
    }

    /** `loadChampionships`: a failed request skips its championship. */
    method LoadChampionships(fetch: string -> Option<string>, sanitize: string -> string)
      modifies this`top5Data
      ensures top5Data == Top5Data(fetch, Championships, sanitize)
    {
      LoadRankings(Championships, fetch, sanitize);
    }

    /** The loop of `loadChampionships` over the given championships. */
    method LoadRankings(championships: seq<string>, fetch: string -> Option<string>, sanitize: string -> string)
      modifies this`top5Data
      ensures top5Data == Top5Data(fetch, championships, sanitize)
    {
      var teamNames: seq<string> := [];
      top5Data := [];
      var c := 0;
      while c < |championships|
        invariant 0 <= c <= |championships|
        invariant teamNames == AddAll([], Offered(fetch, championships[..c], sanitize))
        invariant top5Data == teamNames
      {
        var championship := championships[c];
        var data := fetch(ChampionshipFile(championship));
        ghost var before := teamNames;
        if data.Some? {
          var top5Teams := FileTopTeams(data.value);
          teamNames := OfferTeams(teamNames, top5Teams, sanitize);
        }
        OfferChampionship(fetch, sanitize, championships, c, before, teamNames);
        c := c + 1;
      }
      assert championships[..|championships|] == championships;
      top5Data := teamNames;
    }

    /** `top5Teams.forEach(...)`: each sanitised name not yet in the list is
        pushed onto both `teamNames` and `top5Data`. */
    method OfferTeams(teamNames: seq<string>, top5Teams: seq<Team>, sanitize: string -> string)
      returns (names: seq<string>)
      requires top5Data == teamNames
      modifies this`top5Data
      ensures names == AddAll(teamNames, SanitizedNames(top5Teams, sanitize))
      ensures top5Data == names
    {
      names := teamNames;
      var j := 0;
      while j < |top5Teams|
        invariant 0 <= j <= |top5Teams|
        invariant names == AddAll(teamNames, SanitizedNames(top5Teams[..j], sanitize))
        invariant top5Data == names
      {
        var sanitized := sanitize(top5Teams[j].name);
        SanitizedStep(top5Teams, sanitize, j);
        AddAllSnoc(teamNames, SanitizedNames(top5Teams[..j], sanitize), sanitized);
        if sanitized !in names {
          names := names + [sanitized];
          top5Data := top5Data + [sanitized];
        }
        j := j + 1;
      }
      assert top5Teams[..|top5Teams|] == top5Teams;
    }

    /** `cleanPos`: `false` when a player's `Pos` throws. */
    method CleanPos() returns (ok: bool)
      modifies this`playerData
      ensures (playerData, ok) == UpdateRosters(old(playerData), CleanPosRecord)
    {
      ok := ForEachPlayer(CleanPosRecord);
    }

    /** `cleanAge`: `false` when a player's `Age` throws. */
    method CleanAge() returns (ok: bool)
      modifies this`playerData
      ensures (playerData, ok) == UpdateRosters(old(playerData), CleanAgeRecord)
    {
      ok := ForEachPlayer(CleanAgeRecord);
    }

    /** `cleanClub`: `false` when a player's `Club` throws. */
    method CleanClub(sanitize: string -> string) returns (ok: bool)
      modifies this`playerData
      ensures (playerData, ok) == UpdateRosters(old(playerData), r => CleanClubRecord(r, old(top5Data), sanitize))
    {
      var top5 := top5Data;
      ok := ForEachPlayer(r => CleanClubRecord(r, top5, sanitize));
    }

    /** The two nested `forEach` loops shared by the three rewrites: each
        player object is rewritten in place until one throws. */
    method ForEachPlayer(f: Record -> Option<Record>) returns (ok: bool)
      modifies this`playerData
      ensures (playerData, ok) == UpdateRosters(old(playerData), f)
    {
      var g := CountryStep(f);
      ResumeStart(playerData, g);
      var ci := 0;
      while ci < |playerData|
        invariant ci <= |playerData|
        invariant Resume(playerData, ci, g) == UpdateRosters(old(playerData), f)
      {
        var country := playerData[ci].0;
        var ps, done := RewritePlayers(playerData[ci].1, f);
        ResumeStep(playerData, ci, g);
        playerData := playerData[ci := (country, ps)];
        if !done {
          ok := false;
          return;
        }
        ci := ci + 1;
      }
      ResumeDone(playerData, g);
      ok := true;
    }

    /** `orderPlayers`. */
    method OrderPlayersInPlace()
      modifies this`playerData
      ensures playerData == OrderPlayers(old(playerData))
    {
      playerData := OrderPlayers(playerData);
    }

    // -------------------------------------------------------------
    // The scroll toggle

    /** `orderByAge`: starts the transition that spreads circles by age. */
    method OrderByAge()
      modifies this`checked, this`scrollingDown, this`transitionDone, this`layout
      ensures Toggle() == old(Toggle()).(transitionDone := false, layout := T.ByAge)
    {
      transitionDone := false;
      layout := T.ByAge;
    }

    /** `orderByClub`: starts the transition back to the club order. */
    method OrderByClub()
      modifies this`checked, this`scrollingDown, this`transitionDone, this`layout
      ensures Toggle() == old(Toggle()).(transitionDone := false, layout := T.ByClub)
    {
      transitionDone := false;
      layout := T.ByClub;
    }

    method OnSlideToggleChange(eventChecked: bool)
      modifies this`checked, this`scrollingDown, this`transitionDone, this`layout
      ensures Toggle() == T.SlideToggleChange(old(Toggle()), eventChecked)
    {
      if eventChecked {
        OrderByAge();
      } else {
        OrderByClub();
      }
    }

    method ChangeToggle()
      modifies this`checked, this`scrollingDown, this`transitionDone, this`layout
      ensures Toggle() == T.ChangeToggle(old(Toggle()))
    {
      checked := !checked;
      OnSlideToggleChange(checked);
    }

    /** The `end` callback of the circle transition. */
    method OnTransitionEnd()
      modifies this`checked, this`scrollingDown, this`transitionDone, this`layout
      ensures Toggle() == T.Step(old(Toggle()), T.TransitionEnd)
    {
      transitionDone := true;
    }

    /** The `wheel` listener registered by `onWheelChange`. */
    method OnWheel(deltaY: real)
      modifies this`checked, this`scrollingDown, this`transitionDone, this`layout
      ensures Toggle() == T.Step(old(Toggle()), T.Event.Wheel(deltaY))
    {
      if transitionDone {
        if deltaY < 0.0 && scrollingDown {
          ChangeToggle();
          scrollingDown := false;
        }
        if deltaY > 0.0 && !scrollingDown {
          ChangeToggle();
          scrollingDown := true;
        }
      }
    }
  }

  // ---------------------------------------------------------------
  // Steps of the loops above

  /** `this.playerData[country].forEach(player => ...)` with a rewrite
      that may throw: the players are rewritten in place. */
  method RewritePlayers(p0: seq<Record>, f: Record -> Option<Record>) returns (ps: seq<Record>, done: bool)
    ensures (ps, done) == UpdatePlayers(p0, f)
  {
    var g := Attempt(f);
    ps := p0;
    ResumeStart(ps, g);
    var pi := 0;
    while pi < |ps|
      invariant pi <= |ps|
      invariant Resume(ps, pi, g) == UpdatePlayers(p0, f)
    {
      var r := f(ps[pi]);
      ResumeStep(ps, pi, g);
      if r.None? {
        done := false;
        assert ps[pi := ps[pi]] == ps;
        return;
      }
      ps := ps[pi := r.value];
      pi := pi + 1;
    }
    ResumeDone(ps, g);
    done := true;
  }

  /** One iteration of `loadPlayers`: the team file requested and read;
      `None` where the iteration throws. */
  method ReadTeam(fetch: string -> Option<string>, country: string) returns (players: Option<seq<Record>>)
    ensures players == FetchRoster(fetch, country)
  {
    var data := fetch(TeamFile(country));
    match data
    case None =>
      players := None;
    case Some(text) =>
      players := ReadRoster(text, country);
  }

  /** A team file's text read: `None` when it has no non-blank line. */
  method ReadRoster(text: string, country: string) returns (players: Option<seq<Record>>)
    ensures players == RosterRecords(text, country)
  {
    var rows := NonBlank(Split(text, '\n'));
    players := ReadRows(rows, country);
  }

  method ReadRows(rows: seq<string>, country: string) returns (players: Option<seq<Record>>)
    ensures players == RowsRecords(rows, country)
  {
    if rows == [] {
      return None;
    }
    var headers := CleanCells(rows[0]);
    var ps := ReadPlayers(headers, rows, country);
    players := Some(ps);
  }

  /** The `for` loop over the lines after a team file's header row. */
  method ReadPlayers(headers: seq<string>, rows: seq<string>, country: string) returns (players: seq<Record>)
    requires |rows| >= 1
    ensures players == Players(headers, rows[1..], country)
  {
    ghost var lines := rows[1..];
    ghost var f := line => MakeRecord(headers, CleanCells(line), country);
    players := [];
    var i := 1;
    while i < |rows|
      invariant 1 <= i <= |rows|
      invariant players == Map(lines[..i - 1], f)
    {
      var cells := CleanCells(rows[i]);
      var player := BuildPlayer(headers, cells, country);
      TailAt(rows, i);
      MapStep(lines, f, i - 1);
      players := players + [player];
      i := i + 1;
    }
    assert lines[..|rows| - 1] == lines;
  }

  /** `headers.forEach((col, index) => playerObject[col] = cells[index])`
      followed by `playerObject['Country'] = country`. */
  method BuildPlayer(headers: seq<string>, cells: seq<string>, country: string) returns (player: Record)
    ensures player == MakeRecord(headers, cells, country)
  {
    player := [];
    var index := 0;
    while index < |headers|
      invariant 0 <= index <= |headers|
      invariant player == FillUpTo(headers, cells, index)
    {
      FillUpToStep(headers, cells, index);
      player := Put(player, headers[index], CellAt(cells, index));
      index := index + 1;
    }
    player := Put(player, "Country", Text(country));
  }

  /** The names of teams, sanitised, in order. */
  function SanitizedNames(teams: seq<Team>, sanitize: string -> string): seq<string> {
    Map(Map(teams, TeamName), sanitize)
  }

  lemma SanitizedStep(teams: seq<Team>, sanitize: string -> string, j: int)
    requires 0 <= j < |teams|
    ensures SanitizedNames(teams[..j + 1], sanitize) ==
      SanitizedNames(teams[..j], sanitize) + [sanitize(teams[j].name)]
  {
  }

  /** One championship file read up to the five best-ranked teams: none
      when its header row lacks either column. */
  method FileTopTeams(text: string) returns (top5Teams: seq<Team>)
    ensures top5Teams == TopTeams(FileTeams(text))
  {
    var rows := Split(text, '\n');
    var headers := CleanCells(rows[0]);
    var nameIndex := IndexOf(headers, "Équipe");
    var rankIndex := IndexOf(headers, "Clt");
    if nameIndex == -1 || rankIndex == -1 {
      top5Teams := [];
      return;
    }
    var teamData := TeamData(rows, nameIndex, rankIndex);
    top5Teams := TopTeams(teamData);
  }

  /** The `for` loop over a championship file's data lines. */
  method TeamData(rows: seq<string>, nameIndex: nat, rankIndex: nat) returns (teamData: seq<Team>)
    requires |rows| >= 1
    ensures teamData == FilterMap(rows[1..], l => TeamOf(l, nameIndex, rankIndex))
  {
    ghost var lines := rows[1..];
    ghost var f := l => TeamOf(l, nameIndex, rankIndex);
    teamData := [];
    var i := 1;
    while i < |rows|
      invariant 1 <= i <= |rows|
      invariant teamData == FilterMap(lines[..i - 1], f)
    {
      var team := TeamRow(rows[i], nameIndex, rankIndex);
      TailAt(rows, i);
      FilterMapStep(lines, f, i - 1);
      if team.Some? {
        teamData := teamData + [team.value];
      }
      i := i + 1;
    }
    assert lines[..|rows| - 1] == lines;
  }

  /** One data line of a championship file: its team when the name cell
      is non-empty and the rank cell parses. */
  method TeamRow(row: string, nameIndex: nat, rankIndex: nat) returns (team: Option<Team>)
    ensures team == TeamOf(row, nameIndex, rankIndex)
  {
    var cells := Split(row, ';');
    var teamName := if nameIndex < |cells| then cells[nameIndex] else "";
    var teamRank := ParseIntOpt(if rankIndex < |cells| then Some(cells[rankIndex]) else None);
    if teamName != "" && teamRank.Some? {
      team := Some(Team(teamName, teamRank.value));
    } else {
      team := None;
    }
  }

  /** One iteration of the championship loop adds what the championship
      offers. */
  lemma OfferChampionship(fetch: string -> Option<string>, sanitize: string -> string, championships: seq<string>,
                          c: int, before: seq<string>, after: seq<string>)
    requires 0 <= c < |championships|
    requires before == AddAll([], Offered(fetch, championships[..c], sanitize))
    requires fetch(ChampionshipFile(championships[c])).None? ==> after == before
    requires fetch(ChampionshipFile(championships[c])).Some? ==>
      after == AddAll(before, SanitizedNames(TopTeams(FileTeams(fetch(ChampionshipFile(championships[c])).value)), sanitize))
    ensures after == AddAll([], Offered(fetch, championships[..c + 1], sanitize))
  {
    var names := ChampionshipNames(fetch, championships[c], sanitize);
    OfferedStep(fetch, championships, sanitize, c);
    AddAllAppend([], Offered(fetch, championships[..c], sanitize), names);
    if fetch(ChampionshipFile(championships[c])).None? {
      assert names == [];
      assert AddAll(before, []) == before;
    }
  }

  lemma LoadFromStop(m: Rosters, countries: seq<string>, roster: string -> Option<seq<Record>>, k: int)
    requires 0 <= k < |countries| && roster(countries[k]).None?
    ensures LoadFrom(m, countries[k..], roster) == m
  {
    assert countries[k..][0] == countries[k];
  }

  lemma LoadFromNext(m: Rosters, countries: seq<string>, roster: string -> Option<seq<Record>>, k: int,
                     players: seq<Record>)
    requires 0 <= k < |countries| && roster(countries[k]) == Some(players)
    ensures LoadFrom(m, countries[k..], roster) == LoadFrom(Put(m, countries[k], players), countries[k + 1..], roster)
  {
    assert countries[k..][0] == countries[k] && countries[k..][1..] == countries[k + 1..];
  }
}
