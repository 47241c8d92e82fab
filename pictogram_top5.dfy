/** The top-5 club names of `loadChampionships`: for each championship
    file, the five best-ranked teams, sanitised and added to one list
    without repeats. */
module PictogramTop5 {
  import opened Wrappers
  import opened JsString
  import opened JsSet
  import opened Seqs
  import opened StableSort
  import opened PictogramData

  /** A team row that was kept: its name and its rank. */
  datatype Team = Team(name: string, rank: int)

  /** The championships, in the order their files are requested. */
  const Championships: seq<string> := ["PremierLeague", "Ligue1", "SerieA", "Bundesliga", "Liga"]

  /** The file requested for a championship. */
  function ChampionshipFile(championship: string): string {
    "assets/Championships/" + championship + "_2021_2022.csv"
  }

  /** One data line: kept when the cell under the team-name column is a
      non-empty string and the cell under the rank column parses as an
      integer.  A missing cell is `undefined`: falsy, and not a number. */
  function TeamOf(line: string, nameIndex: nat, rankIndex: nat): Option<Team> {
    var cells := Split(line, ';');
    var name := if nameIndex < |cells| then cells[nameIndex] else "";
    var rank := ParseIntOpt(if rankIndex < |cells| then Some(cells[rankIndex]) else None);
    if name != "" && rank.Some? then Some(Team(name, rank.value)) else None
  }

  /** The sort key: `(a, b) => a.rank - b.rank` orders by increasing rank,
      that is by decreasing negated rank. */
  function RankKey(t: Team): real {
    -(t.rank as real)
  }

  function Min(a: int, b: int): int {
    if a <= b then a else b
  }

  /** `teamData.sort(...).slice(0, 5)`. */
  function TopTeams(teams: seq<Team>): seq<Team> {
    var sorted := SortDesc(teams, RankKey);
    sorted[..Min(5, |sorted|)]
  }

  /** The teams kept from one file's data lines, or nothing when its header
      row lacks an `Équipe` or a `Clt` column. */
  function FileTeams(text: string): seq<Team> {
    var rows := Split(text, '\n');
    var headers := CleanCells(rows[0]);
    var nameIndex := IndexOf(headers, "Équipe");
    var rankIndex := IndexOf(headers, "Clt");
    if nameIndex == -1 || rankIndex == -1 then []
    else FilterMap(rows[1..], l => TeamOf(l, nameIndex, rankIndex))
  }

  function TeamName(t: Team): string {
    t.name
  }

  /** The sanitised names one championship contributes, in the order they
      are offered to the list: none when its request fails. */
  function ChampionshipNames(fetch: string -> Option<string>, championship: string,
                             sanitize: string -> string): seq<string> {
    match fetch(ChampionshipFile(championship))
    case None => []
    case Some(text) => Map(Map(TopTeams(FileTeams(text)), TeamName), sanitize)
  }

  /** Everything offered to the list by the first championships, in
      order. */
  function Offered(fetch: string -> Option<string>, championships: seq<string>,
                   sanitize: string -> string): seq<string> {
    if championships == [] then []
    else
      var n := |championships| - 1;
      Offered(fetch, championships[..n], sanitize) + ChampionshipNames(fetch, championships[n], sanitize)
  }

  /** The final `top5Data`. */
  function Top5Data(fetch: string -> Option<string>, championships: seq<string>,
                    sanitize: string -> string): seq<string> {
    AddAll([], Offered(fetch, championships, sanitize))
  }

  // ---------------------------------------------------------------
  // Properties

  /** A file whose header row lacks either column contributes nothing. */
  lemma FileWithoutColumns(text: string)
    requires var headers := CleanCells(Split(text, '\n')[0]);
             "Équipe" !in headers || "Clt" !in headers
    ensures FileTeams(text) == []
  {
  }

  /** A team is kept exactly when some data line has a non-empty name and
      an integer rank under the two columns. */
  lemma FileTeamsMember(text: string, t: Team)
    requires var headers := CleanCells(Split(text, '\n')[0]);
             "Équipe" in headers && "Clt" in headers
    ensures var rows := Split(text, '\n');
            var headers := CleanCells(rows[0]);
            t in FileTeams(text) <==>
              exists i :: 0 <= i < |rows[1..]| &&
                TeamOf(rows[1..][i], IndexOf(headers, "Équipe"), IndexOf(headers, "Clt")) == Some(t)
  {
    var rows := Split(text, '\n');
    var headers := CleanCells(rows[0]);
    var ni, ri := IndexOf(headers, "Équipe"), IndexOf(headers, "Clt");
    FilterMapMember(rows[1..], l => TeamOf(l, ni, ri), t);
  }

  /** Every kept team has a non-empty name. */
  lemma TeamOfName(line: string, ni: nat, ri: nat)
    requires TeamOf(line, ni, ri).Some?
    ensures TeamOf(line, ni, ri).value.name != ""
    ensures ni < |Split(line, ';')| && TeamOf(line, ni, ri).value.name == Split(line, ';')[ni]
  {
  }

  /** At most five teams are taken from a file, they come from the file,
      in increasing order of rank, and no team left behind ranks better
      than a team taken. */
  lemma TopTeamsSpec(teams: seq<Team>)
    ensures |TopTeams(teams)| == Min(5, |teams|)
    ensures multiset(TopTeams(teams)) <= multiset(teams)
    ensures forall i, j :: 0 <= i < j < |TopTeams(teams)| ==> TopTeams(teams)[i].rank <= TopTeams(teams)[j].rank
    ensures forall t, u :: t in TopTeams(teams) && u in multiset(teams) - multiset(TopTeams(teams)) ==>
              t.rank <= u.rank
  {
    TakeSorted(teams, RankKey, Min(5, |teams|));
  }

  /** A championship contributes at most five names. */
  lemma ChampionshipNamesBound(fetch: string -> Option<string>, championship: string, sanitize: string -> string)
    ensures |ChampionshipNames(fetch, championship, sanitize)| <= 5
  {
    var data := fetch(ChampionshipFile(championship));
    if data.Some? {
      var teams := FileTeams(data.value);
      TopTeamsSpec(teams);
      assert ChampionshipNames(fetch, championship, sanitize) == Map(Map(TopTeams(teams), TeamName), sanitize);
    }
  }

  lemma OfferedStep(fetch: string -> Option<string>, championships: seq<string>, sanitize: string -> string, c: int)
    requires 0 <= c < |championships|
    ensures Offered(fetch, championships[..c + 1], sanitize) ==
      Offered(fetch, championships[..c], sanitize) + ChampionshipNames(fetch, championships[c], sanitize)
  {
    assert championships[..c + 1][..c] == championships[..c];
  }

  /** `top5Data` has no repeats, and holds exactly the names some
      championship offered. */
  lemma Top5DataExact(fetch: string -> Option<string>, championships: seq<string>, sanitize: string -> string, x: string)
    ensures NoDup(Top5Data(fetch, championships, sanitize))
    ensures x in Top5Data(fetch, championships, sanitize) <==> x in Offered(fetch, championships, sanitize)
  {
  }

  /** `top5Data` lists names in the order in which they were first
      offered. */
  lemma Top5DataOrder(fetch: string -> Option<string>, championships: seq<string>, sanitize: string -> string,
                      i: int, j: int)
    requires 0 <= i < j < |Top5Data(fetch, championships, sanitize)|
    ensures var t := Top5Data(fetch, championships, sanitize);
            var o := Offered(fetch, championships, sanitize);
            t[i] in o && t[j] in o && First(o, t[i]) < First(o, t[j])
  {
    FirstSeenOrder(Offered(fetch, championships, sanitize), i, j);
  }
}
