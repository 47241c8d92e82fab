/** `orderPlayers` and `countClub`: players of a top-5 club first, and the
    in/out/total counts shown next to each country. */
module PictogramOrder {
  import opened JsObject
  import opened StableSort
  import opened PictogramData

  /** `player['ClubInTop5']` as the comparator reads it: `b - a` on two
      booleans is `1`, `-1` or `0`. */
  function ClubKey(r: Record): real {
    if Truthy(Prop(r, "ClubInTop5")) then 1.0 else 0.0
  }

  /** One country's players after the sort: top-5 players first, each
      group in its original order. The tie-breaking subtraction of two
      names that do not convert to numbers is NaN, which the sort reads as
      "equal"; names that do convert are outside this model. */
  function OrderRoster(players: seq<Record>): seq<Record> {
    SortDesc(players, ClubKey)
  }

  /** `orderPlayers`: every country's players reordered, the countries
      kept in their order. */
  function OrderPlayers(m: Rosters): (r: Rosters)
    ensures |r| == |m|
    ensures forall i :: 0 <= i < |m| ==> r[i] == (m[i].0, OrderRoster(m[i].1))
  {
    seq(|m|, i requires 0 <= i < |m| => (m[i].0, OrderRoster(m[i].1)))
  }

  /** `countIn`: the players whose `ClubInTop5` is truthy. */
  function CountIn(players: seq<Record>): (n: nat)
    ensures n <= |players|
  {
    if players == [] then 0
    else (if Truthy(Prop(players[0], "ClubInTop5")) then 1 else 0) + CountIn(players[1..])
  }

  /** `countClub`: `countIn`, `countOut` and `countTot`. */
  function CountClub(players: seq<Record>): (counts: (nat, int, nat))
  {
    (CountIn(players), |players| - CountIn(players), |players|)
  }

  // ---------------------------------------------------------------
  // Properties

  /** `countIn` counts the players of key 1. */
  lemma {:induction false} CountInWithKey(players: seq<Record>)
    ensures CountIn(players) == |WithKey(players, ClubKey, 1.0)|
  {
    if players != [] {
      CountInWithKey(players[1..]);
    }
  }

  /** The in and out counts are non-negative and add up to the roster
      size. */
  lemma CountClubSum(players: seq<Record>)
    ensures var (countIn, countOut, countTot) := CountClub(players);
            countOut >= 0 && countIn + countOut == countTot == |players|
  {
  }

  /** Ordering does not change the counts. */
  lemma CountInvariant(players: seq<Record>)
    ensures CountClub(OrderRoster(players)) == CountClub(players)
  {
    CountInWithKey(players);
    CountInWithKey(OrderRoster(players));
    SortStable(players, ClubKey, 1.0);
  }

  /** In a sequence in non-increasing key order whose keys are 0 or 1, the
      key-1 elements are exactly the first ones, as many as there are. */
  lemma {:induction false} SortedFlags(s: seq<Record>, i: int)
    requires SortedDesc(s, ClubKey) && 0 <= i < |s|
    ensures ClubKey(s[i]) == 1.0 <==> i < CountIn(s)
  {
    CountInWithKey(s);
    if ClubKey(s[0]) == 1.0 {
      if i > 0 {
        assert SortedDesc(s[1..], ClubKey) by {
          forall a, b | 0 <= a < b < |s| - 1 ensures ClubKey(s[1..][a]) >= ClubKey(s[1..][b]) {
            assert s[1..][a] == s[a + 1] && s[1..][b] == s[b + 1];
          }
        }
        SortedFlags(s[1..], i - 1);
        assert s[1..][i - 1] == s[i];
      }
    } else {
      assert CountIn(s) == 0 by {
        forall j | 0 <= j < |s| ensures ClubKey(s[j]) != 1.0 {
          if j > 0 {
            assert ClubKey(s[0]) >= ClubKey(s[j]);
          }
        }
        NoKeyOne(s);
      }
    }
  }

  lemma {:induction false} NoKeyOne(s: seq<Record>)
    requires forall j :: 0 <= j < |s| ==> ClubKey(s[j]) != 1.0
    ensures CountIn(s) == 0
  {
    if s != [] {
      NoKeyOne(s[1..]);
    }
  }

  /** `orderPlayers` keeps the players of each country (a permutation),
      puts exactly the first `countIn` of them in a top-5 club, and keeps
      each group in its original order. */
  lemma OrderRosterSpec(players: seq<Record>, i: int)
    requires 0 <= i < |players|
    ensures multiset(OrderRoster(players)) == multiset(players)
    ensures Truthy(Prop(OrderRoster(players)[i], "ClubInTop5")) <==> i < CountIn(players)
    ensures WithKey(OrderRoster(players), ClubKey, 1.0) == WithKey(players, ClubKey, 1.0)
    ensures WithKey(OrderRoster(players), ClubKey, 0.0) == WithKey(players, ClubKey, 0.0)
  {
    var s := OrderRoster(players);
    SortedFlags(s, i);
    CountInvariant(players);
    SortStable(players, ClubKey, 1.0);
    SortStable(players, ClubKey, 0.0);
  }

  /** Every top-5 player comes before every other player. */
  lemma OrderRosterTopFirst(players: seq<Record>, i: int, j: int)
    requires 0 <= i < |OrderRoster(players)| && 0 <= j < |OrderRoster(players)|
    requires Truthy(Prop(OrderRoster(players)[i], "ClubInTop5"))
    requires !Truthy(Prop(OrderRoster(players)[j], "ClubInTop5"))
    ensures i < j
  {
    var s := OrderRoster(players);
    assert ClubKey(s[i]) == 1.0 && ClubKey(s[j]) == 0.0;
    assert SortedDesc(s, ClubKey);
  }

  /** Ordering twice is ordering once, and `orderPlayers` keeps the
      countries. */
  lemma OrderPlayersSpec(m: Rosters)
    ensures Keys(OrderPlayers(m)) == Keys(m)
    ensures OrderPlayers(OrderPlayers(m)) == OrderPlayers(m)
  {
    KeysAt(m);
    KeysAt(OrderPlayers(m));
    forall i | 0 <= i < |m| ensures OrderRoster(OrderRoster(m[i].1)) == OrderRoster(m[i].1) {
      SortIdempotent(m[i].1, ClubKey);
    }
  }
}
