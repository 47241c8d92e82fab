/** The per-player rewrites of the pictogram (`cleanPos`, `cleanAge`,
    `cleanClub`) and the traversal that applies one of them to every
    player of every country. */
module PictogramClean {
  import opened Wrappers
  import opened JsString
  import opened JsObject
  import opened PictogramData
  import opened Seqs

  // ---------------------------------------------------------------
  // cleanPos

  /** `positionType[code] || code`: the four known codes are spelled out,
      any other code stays as it is. Codes that name a property every
      object inherits (`constructor`, `toString`, ...) are outside this
      model. */
  function PositionName(code: string): (name: string)
    ensures ',' !in code ==> ',' !in name
  {
    if code == "AT" then "Forward "
    else if code == "MT" then "Midfielder"
    else if code == "DF" then "Defender "
    else if code == "GB" then "Goalkeeper"
    else code
  }

  /** The spelled-out name of each trimmed code. */
  function PositionNames(codes: seq<string>): (names: seq<string>)
    ensures |names| == |codes|
    ensures forall i :: 0 <= i < |codes| ==> names[i] == PositionName(Trim(codes[i]))
  {
    seq(|codes|, i requires 0 <= i < |codes| => PositionName(Trim(codes[i])))
  }

  /** What the `for` loop of `cleanPos` appends: every name followed by a
      comma. */
  function Terminated(names: seq<string>): string {
    if names == [] then ""
    else Terminated(names[..|names| - 1]) + names[|names| - 1] + ","
  }

  /** The new `Pos` value: the terminated names with their last character
      (the trailing comma) sliced off. */
  function ExpandPositions(pos: string): string {
    DropLast(Terminated(PositionNames(Split(pos, ','))))
  }

  /** `s.slice(0, -1)`. */
  function DropLast(s: string): string {
    if s == [] then [] else s[..|s| - 1]
  }

  /** The loop of `cleanPos` over the comma-separated codes of one
      player's `Pos`. */
  method BuildPositions(pos: string) returns (expanded: string)
    ensures expanded == ExpandPositions(pos)
  {
    var codes := Split(pos, ',');
    var playerPos := TerminateNames(codes);
    expanded := DropLast(playerPos);
  }

  /** The loop itself: each code's name followed by a comma. */
  method TerminateNames(codes: seq<string>) returns (playerPos: string)
    ensures playerPos == Terminated(PositionNames(codes))
  {
    ghost var names := PositionNames(codes);
    playerPos := "";
    var i := 0;
    while i < |codes|
      invariant 0 <= i <= |codes|
      invariant playerPos == Terminated(names[..i])
    {
      var name := PositionName(Trim(codes[i]));
      playerPos := playerPos + name;
      playerPos := playerPos + ",";
      NamesStep(names, i);
      i := i + 1;
    }
    assert names[..|codes|] == names;
  }

  lemma NamesStep(names: seq<string>, i: int)
    requires 0 <= i < |names|
    ensures Terminated(names[..i + 1]) == Terminated(names[..i]) + names[i] + ","
  {
    assert names[..i + 1][..i] == names[..i];
  }

  lemma {:induction false} TerminatedJoin(names: seq<string>)
    requires names != []
    ensures Terminated(names) == Join(names, ',') + ","
    decreases |names|
  {
    var n := |names|;
    if n > 1 {
      var front := names[..n - 1];
      TerminatedJoin(front);
      assert names == front + [names[n - 1]];
      JoinSnoc(front, names[n - 1], ',');
    } else {
      assert names[..0] == [];
    }
  }

  /** The expanded positions are the names joined with commas: one name
      per code, each code's own, and no trailing comma. */
  lemma ExpandPositionsParts(pos: string)
    ensures Split(ExpandPositions(pos), ',') == PositionNames(Split(pos, ','))
  {
    var codes := Split(pos, ',');
    var names := PositionNames(codes);
    TerminatedJoin(names);
    var j := Join(names, ',');
    assert DropLast(j + ",") == j;
    forall i | 0 <= i < |names| ensures ',' !in names[i] {
      TrimKeepsOut(codes[i], ',');
    }
    SplitJoin(names, ',');
  }

  /** What `cleanPos` does to one player: `None` when `Pos` is not a
      string, since its `split` then throws. */
  function CleanPosRecord(r: Record): Option<Record> {
    match Prop(r, "Pos")
    case Text(pos) => Some(Put(r, "Pos", Text(ExpandPositions(pos))))
    case _ => None
  }

  /** `cleanPos` rewrites `Pos` and nothing else, and fails exactly on a
      player whose `Pos` is not a string. */
  lemma CleanPosRecordSpec(r: Record, k: string)
    ensures CleanPosRecord(r).None? <==> !Prop(r, "Pos").Text?
    ensures CleanPosRecord(r).Some? ==>
      && Keys(CleanPosRecord(r).value) == Keys(r)
      && Get(CleanPosRecord(r).value, k) ==
           if k == "Pos" then Some(Text(ExpandPositions(Prop(r, "Pos").s))) else Get(r, k)
  {
    if Prop(r, "Pos").Text? {
      PutGet(r, "Pos", Text(ExpandPositions(Prop(r, "Pos").s)), k);
    }
  }

  // ---------------------------------------------------------------
  // cleanAge

  /** The rewritten `Age` text: the years part written twice. */
  function AgeText(years: string): string {
    years + " years " + years + " days"
  }

  /** The new `Age` text and `AgeInYear` value for an `Age` string, when
      both halves of its `-` split parse as integers.  A missing second
      half is `undefined`, which `parseInt` rejects. */
  function AgeUpdate(age: string): Option<(string, real)> {
    var parts := Split(age, '-');
    var years := ParseInt(parts[0]);
    var days := ParseIntOpt(if |parts| > 1 then Some(parts[1]) else None);
    if years.Some? && days.Some? then
      Some((AgeText(parts[0]), years.value as real + days.value as real / 365.0))
    else None
  }

  /** What `cleanAge` does to one player: `None` when `Age` is not a
      string; otherwise `Age` and `AgeInYear` are set when the age parses,
      and the player is left as it is when it does not. */
  function CleanAgeRecord(r: Record): Option<Record> {
    match Prop(r, "Age")
    case Text(age) =>
      (match AgeUpdate(age)
       case None => Some(r)
       case Some(u) => Some(Put(Put(r, "Age", Text(u.0)), "AgeInYear", Num(u.1))))
    case _ => None
  }

  /** The age parses exactly when both halves of its split are integers,
      and `AgeInYear` is then `years + days / 365`. */
  lemma AgeUpdateSpec(age: string)
    ensures var parts := Split(age, '-');
      AgeUpdate(age).Some? <==> |parts| > 1 && ParseInt(parts[0]).Some? && ParseInt(parts[1]).Some?
    ensures var parts := Split(age, '-');
      AgeUpdate(age).Some? ==>
        AgeUpdate(age).value.1 == ParseInt(parts[0]).value as real + ParseInt(parts[1]).value as real / 365.0
  {
  }

  /** `cleanAge` fails exactly on a player whose `Age` is not a string; it
      leaves a player whose age does not parse as it is, and otherwise
      sets `AgeInYear` from the age and changes nothing but `Age`. */
  lemma CleanAgeRecordSpec(r: Record, k: string)
    ensures CleanAgeRecord(r).None? <==> !Prop(r, "Age").Text?
    ensures Prop(r, "Age").Text? && AgeUpdate(Prop(r, "Age").s).None? ==> CleanAgeRecord(r) == Some(r)
    ensures Prop(r, "Age").Text? && AgeUpdate(Prop(r, "Age").s).Some? ==>
      && Get(CleanAgeRecord(r).value, "AgeInYear") == Some(Num(AgeUpdate(Prop(r, "Age").s).value.1))
      && (k != "Age" && k != "AgeInYear" ==> Get(CleanAgeRecord(r).value, k) == Get(r, k))
  {
    if Prop(r, "Age").Text? && AgeUpdate(Prop(r, "Age").s).Some? {
      var u := AgeUpdate(Prop(r, "Age").s).value;
      var r1 := Put(r, "Age", Text(u.0));
      var r2 := Put(r1, "AgeInYear", Num(u.1));
      assert CleanAgeRecord(r) == Some(r2);
      PutGet(r1, "AgeInYear", Num(u.1), "AgeInYear");
      PutGet(r1, "AgeInYear", Num(u.1), k);
      PutGet(r, "Age", Text(u.0), k);
    }
  }

  /** An age written `<years>-<days>` in decimal parses, with `AgeInYear`
      equal to `years + days / 365`. */
  lemma AgeWellFormed(years: nat, days: nat)
    ensures AgeUpdate(NatToString(years) + "-" + NatToString(days)).Some?
    ensures AgeUpdate(NatToString(years) + "-" + NatToString(days)).value.1 == years as real + days as real / 365.0
  {
    var y, d := NatToString(years), NatToString(days);
    assert Split(y + "-" + d, '-') == [y, d] by {
      assert '-' !in y && '-' !in d;
      SplitPair(y, d, '-');
    }
    assert ParseInt(y) == Some(years as int) by {
      ParseIntRoundTrip(years);
    }
    assert ParseInt(d) == Some(days as int) by {
      ParseIntRoundTrip(days);
    }
    AgeUpdateOf(y + "-" + d, y, d, years, days);
  }

  lemma AgeUpdateOf(age: string, y: string, d: string, years: int, days: int)
    requires Split(age, '-') == [y, d] && ParseInt(y) == Some(years) && ParseInt(d) == Some(days)
    ensures AgeUpdate(age).Some?
    ensures AgeUpdate(age).value.1 == years as real + days as real / 365.0
  {
  }

  // ---------------------------------------------------------------
  // cleanClub

  /** The non-breaking space between a club's country code and its name. */
  const NBSP: char := '\U{00A0}'

  /** The country of a club from the part before the first non-breaking
      space: the upper-cased text between its first and second `.`, or the
      empty string when the part is empty or that text is empty. */
  function ClubCountry(head: string): string {
    if head == "" then ""
    else
      var parts := Split(head, '.');
      if |parts| > 1 && parts[1] != "" then ToUpper(parts[1]) else ""
  }

  /** A part with no `.` gives no country. */
  lemma ClubCountryNoDot(head: string)
    requires '.' !in head
    ensures ClubCountry(head) == ""
  {
    if head != "" {
      SplitSeparatorFree(head, '.');
    }
  }

  /** After a non-empty prefix and a `.`, the country is the upper-cased
      text up to the next `.`. */
  lemma ClubCountryAfterDot(prefix: string, rest: string)
    requires prefix != "" && '.' !in prefix
    ensures ClubCountry(prefix + "." + rest) == ToUpper(Split(rest, '.')[0])
  {
    var t := "." + rest;
    SplitPrefix(prefix, t, '.');
    assert prefix + "." + rest == prefix + t;
    assert t[1..] == rest;
  }

  /** What `cleanClub` does to one player, with `sanitize` given as a
      function: `None` when `Club` is not a string or has no non-breaking
      space (the club name is then `undefined` and `sanitize` throws). */
  function CleanClubRecord(r: Record, top5: seq<string>, sanitize: string -> string): Option<Record> {
    match Prop(r, "Club")
    case Text(club) =>
      var parts := Split(club, NBSP);
      if |parts| < 2 then None
      else
        var name := parts[1];
        Some(Put(Put(Put(r, "Club", Text(sanitize(name))),
                     "ClubCountry", Text(sanitize(ClubCountry(parts[0])))),
                 "ClubInTop5", Flag(name in top5)))
    case _ => None
  }

  /** `cleanClub` fails exactly on a player whose `Club` is not a string
      with a non-breaking space; otherwise it sets `Club`, `ClubCountry`
      and `ClubInTop5` (membership of the raw name, before sanitising) and
      changes nothing else. */
  lemma CleanClubRecordSpec(r: Record, top5: seq<string>, sanitize: string -> string, k: string)
    ensures CleanClubRecord(r, top5, sanitize).None? <==>
      !Prop(r, "Club").Text? || |Split(Prop(r, "Club").s, NBSP)| < 2
    ensures CleanClubRecord(r, top5, sanitize).Some? ==>
      var parts := Split(Prop(r, "Club").s, NBSP);
      var r' := CleanClubRecord(r, top5, sanitize).value;
      && Get(r', "Club") == Some(Text(sanitize(parts[1])))
      && Get(r', "ClubCountry") == Some(Text(sanitize(ClubCountry(parts[0]))))
      && Get(r', "ClubInTop5") == Some(Flag(parts[1] in top5))
      && (k != "Club" && k != "ClubCountry" && k != "ClubInTop5" ==> Get(r', k) == Get(r, k))
  {
    if CleanClubRecord(r, top5, sanitize).Some? {
      var parts := Split(Prop(r, "Club").s, NBSP);
      var club := Text(sanitize(parts[1]));
      var cc := Text(sanitize(ClubCountry(parts[0])));
      var f := Flag(parts[1] in top5);
      var r1 := Put(r, "Club", club);
      var r2 := Put(r1, "ClubCountry", cc);
      var r3 := Put(r2, "ClubInTop5", f);
      assert CleanClubRecord(r, top5, sanitize) == Some(r3);
      ThreePuts(r, "Club", club, "ClubCountry", cc, "ClubInTop5", f, "Club");
      ThreePuts(r, "Club", club, "ClubCountry", cc, "ClubInTop5", f, "ClubCountry");
      ThreePuts(r, "Club", club, "ClubCountry", cc, "ClubInTop5", f, "ClubInTop5");
      ThreePuts(r, "Club", club, "ClubCountry", cc, "ClubInTop5", f, k);
    }
  }

  lemma ThreePuts(r: Record, k1: string, v1: Field, k2: string, v2: Field, k3: string, v3: Field, k: string)
    ensures Get(Put(Put(Put(r, k1, v1), k2, v2), k3, v3), k) ==
      if k == k3 then Some(v3) else if k == k2 then Some(v2) else if k == k1 then Some(v1) else Get(r, k)
  {
    PutGet(Put(Put(r, k1, v1), k2, v2), k3, v3, k);
    PutGet(Put(r, k1, v1), k2, v2, k);
    PutGet(r, k1, v1, k);
  }

  // ---------------------------------------------------------------
  // The traversal shared by the three rewrites

  /** A rewrite as a traversal step: a player whose rewrite throws is left
      as it is. */
  function Attempt(f: Record -> Option<Record>): Record -> (Record, bool) {
    p => match f(p)
         case None => (p, false)
         case Some(q) => (q, true)
  }

  /** `players.forEach(...)` with a rewrite that may throw. */
  function UpdatePlayers(ps: seq<Record>, f: Record -> Option<Record>): (seq<Record>, bool) {
    Traverse(ps, Attempt(f))
  }

  /** One country of the outer `forEach`: its players traversed. */
  function CountryStep(f: Record -> Option<Record>): ((string, seq<Record>)) -> ((string, seq<Record>), bool) {
    (e: (string, seq<Record>)) => var r := UpdatePlayers(e.1, f); ((e.0, r.0), r.1)
  }

  /** `Object.keys(playerData).forEach(country => ...)` with the same
      rewrite: a failure ends the whole traversal. */
  function UpdateRosters(m: Rosters, f: Record -> Option<Record>): (Rosters, bool) {
    Traverse(m, CountryStep(f))
  }

  /** The traversal succeeds exactly when the rewrite succeeds on every
      player, and then every player is replaced by its rewrite; in any
      case each player either is rewritten or is left as it is. */
  lemma UpdatePlayersSpec(ps: seq<Record>, f: Record -> Option<Record>)
    ensures |UpdatePlayers(ps, f).0| == |ps|
    ensures UpdatePlayers(ps, f).1 <==> forall j :: 0 <= j < |ps| ==> f(ps[j]).Some?
    ensures forall j :: 0 <= j < |ps| ==>
      UpdatePlayers(ps, f).0[j] == ps[j] || f(ps[j]) == Some(UpdatePlayers(ps, f).0[j])
    ensures UpdatePlayers(ps, f).1 ==>
      forall j :: 0 <= j < |ps| ==> f(ps[j]) == Some(UpdatePlayers(ps, f).0[j])
  {
    TraverseSpec(ps, Attempt(f));
  }

  /** The traversal keeps every country in its place, succeeds exactly
      when the rewrite succeeds on every player of every country, and then
      leaves each country with its players rewritten. */
  lemma UpdateRostersSpec(m: Rosters, f: Record -> Option<Record>)
    ensures Keys(UpdateRosters(m, f).0) == Keys(m)
    ensures UpdateRosters(m, f).1 <==> forall i :: 0 <= i < |m| ==> UpdatePlayers(m[i].1, f).1
    ensures UpdateRosters(m, f).1 ==>
      forall i :: 0 <= i < |m| ==> UpdateRosters(m, f).0[i].1 == UpdatePlayers(m[i].1, f).0
  {
    UpdateRostersKeys(m, f);
    UpdateRostersDone(m, f);
  }

  lemma UpdateRostersKeys(m: Rosters, f: Record -> Option<Record>)
    ensures Keys(UpdateRosters(m, f).0) == Keys(m)
  {
    var r := UpdateRosters(m, f);
    assert forall i :: 0 <= i < |m| ==> r.0[i].0 == m[i].0 by {
      TraverseSpec(m, CountryStep(f));
    }
    KeysAt(m);
    KeysAt(r.0);
  }

  lemma UpdateRostersDone(m: Rosters, f: Record -> Option<Record>)
    ensures UpdateRosters(m, f).1 <==> forall i :: 0 <= i < |m| ==> UpdatePlayers(m[i].1, f).1
    ensures UpdateRosters(m, f).1 ==>
      forall i :: 0 <= i < |m| ==> UpdateRosters(m, f).0[i].1 == UpdatePlayers(m[i].1, f).0
  {
    TraverseSpec(m, CountryStep(f));
  }
}
