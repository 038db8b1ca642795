/** The tournament standings: each player's total is the sum of the round
    scores minus the mini-game deductions; players are listed ascending by
    total with a podium of the first three, two team totals, and a badge for
    the change of position against the previous standings. */
module Standings {
  import opened Common
  import opened Sorting
  import RoundInfo

  /** What one subtracting game takes off over the first n rounds. */
  function RoundsDeduction(g: MiniGame, mgs: seq<Option<map<string, int>>>, n: nat): int {
    if n == 0 then 0 else RoundsDeduction(g, mgs, n - 1) + Stars(mgs, n - 1, g.name) * g.deductionValue.GetOr(0)
  }

  function GameDeduction(g: MiniGame, mgs: seq<Option<map<string, int>>>, nRounds: nat): int {
    if g.subtract then RoundsDeduction(g, mgs, nRounds) else 0
  }

  /** The deduction of all games, game by game. */
  function Deduction(games: seq<MiniGame>, mgs: seq<Option<map<string, int>>>, nRounds: nat): int {
    if games == [] then 0
    else Deduction(games[..|games| - 1], mgs, nRounds) + GameDeduction(games[|games| - 1], mgs, nRounds)
  }

  /** `getTotalWithDeduction`. */
  function Total(p: PlayerData, games: seq<MiniGame>, nRounds: nat): int {
    Sum(p.scores) - Deduction(games, p.miniGameScores, nRounds)
  }

  /** The deduction of two lists of games is the sum of their deductions. */
  lemma {:induction false} DeductionAppend(a: seq<MiniGame>, b: seq<MiniGame>, mgs: seq<Option<map<string, int>>>, nRounds: nat)
    ensures Deduction(a + b, mgs, nRounds) == Deduction(a, mgs, nRounds) + Deduction(b, mgs, nRounds)
    decreases |b|
  {
    if b == [] {
      assert a + b == a;
    } else {
      var n := |b| - 1;
      assert (a + b)[..|a + b| - 1] == a + b[..n];
      DeductionAppend(a, b[..n], mgs, nRounds);
    }
  }

  /** The games that subtract, in order. */
  function Subtracting(games: seq<MiniGame>): (r: seq<MiniGame>)
    ensures forall g :: g in r <==> g in games && g.subtract
  {
    if games == [] then []
    else
      var n := |games| - 1;
      assert games == games[..n] + [games[n]];
      Subtracting(games[..n]) + (if games[n].subtract then [games[n]] else [])
  }

  /** A game that does not subtract never changes any total: only the
      subtracting games count. */
  lemma {:induction false} OnlySubtractingGamesCount(games: seq<MiniGame>, mgs: seq<Option<map<string, int>>>, nRounds: nat)
    ensures Deduction(games, mgs, nRounds) == Deduction(Subtracting(games), mgs, nRounds)
  {
    if games != [] {
      var n := |games| - 1;
      OnlySubtractingGamesCount(games[..n], mgs, nRounds);
      if games[n].subtract {
        DeductionAppend(Subtracting(games[..n]), [games[n]], mgs, nRounds);
        assert [games[n]][..0] == [];
      } else {
        assert Subtracting(games[..n]) + [] == Subtracting(games[..n]);
      }
    }
  }

  /** Without subtracting games the total is the plain sum of the scores. */
  lemma NoSubtractingGamesNoDeduction(p: PlayerData, games: seq<MiniGame>, nRounds: nat)
    requires forall g :: g in games ==> !g.subtract
    ensures Total(p, games, nRounds) == Sum(p.scores)
  {
    OnlySubtractingGamesCount(games, p.miniGameScores, nRounds);
    assert Subtracting(games) == [];
  }

  /** Each star in a subtracting game takes `deduction_value` off the total. */
  lemma {:induction false} OneMoreStar(g: MiniGame, mgs: seq<Option<map<string, int>>>, n: nat, r: nat)
    requires r < n && r < |mgs| && mgs[r].Some? && g.name in mgs[r].value
    ensures var bumped := mgs[r := Some(mgs[r].value[g.name := mgs[r].value[g.name] + 1])];
            RoundsDeduction(g, bumped, n) == RoundsDeduction(g, mgs, n) + g.deductionValue.GetOr(0)
  {
    var bumped := mgs[r := Some(mgs[r].value[g.name := mgs[r].value[g.name] + 1])];
    if n - 1 == r {
      assert RoundsDeduction(g, bumped, n - 1) == RoundsDeduction(g, mgs, n - 1) by {
        UnchangedBefore(g, mgs, bumped, n - 1);
      }
    } else {
      OneMoreStar(g, mgs, n - 1, r);
      assert Stars(bumped, n - 1, g.name) == Stars(mgs, n - 1, g.name);
    }
  }

  lemma {:induction false} UnchangedBefore(g: MiniGame, a: seq<Option<map<string, int>>>, b: seq<Option<map<string, int>>>, n: nat)
    requires forall r :: 0 <= r < n ==> Stars(a, r, g.name) == Stars(b, r, g.name)
    ensures RoundsDeduction(g, a, n) == RoundsDeduction(g, b, n)
  {
    if n > 0 {
      UnchangedBefore(g, a, b, n - 1);
    }
  }

  /** The deduction loops of `getTotalWithDeduction` and of each table row. */
  method DeductionOf(mgs: seq<Option<map<string, int>>>, games: seq<MiniGame>, nRounds: nat) returns (deduction: int)
    ensures deduction == Deduction(games, mgs, nRounds)
  {
    deduction := 0;
    for gi := 0 to |games|
      invariant deduction == Deduction(games[..gi], mgs, nRounds)
    {
      assert games[..gi + 1][..gi] == games[..gi];
      var g := games[gi];
      if g.subtract {
        for r := 0 to nRounds
          invariant deduction == Deduction(games[..gi], mgs, nRounds) + RoundsDeduction(g, mgs, r)
        {
          var val := Stars(mgs, r, g.name);
          if val != 0 {
            deduction := deduction + val * g.deductionValue.GetOr(0);
          }
        }
      }
    }
    assert games[..|games|] == games;
  }

  method TotalWithDeduction(p: PlayerData, games: seq<MiniGame>, nRounds: nat) returns (total: int)
    ensures total == Total(p, games, nRounds)
  {
    var rawTotal := Sum(p.scores);
    var deduction := DeductionOf(p.miniGameScores, games, nRounds);
    total := rawTotal - deduction;
  }

  /** The sort key of the standings. */
  function TotalKey(games: seq<MiniGame>, nRounds: nat): PlayerData -> int {
    p => Total(p, games, nRounds)
  }

  /** `sortedPlayers`: ascending by total, ties in input order. */
  function SortedPlayers(players: seq<PlayerData>, games: seq<MiniGame>, nRounds: nat): (r: seq<PlayerData>)
    ensures multiset(r) == multiset(players)
    ensures forall i, j :: 0 <= i < j < |r| ==> Total(r[i], games, nRounds) <= Total(r[j], games, nRounds)
    ensures forall k :: WithKey(r, TotalKey(games, nRounds), k) == WithKey(players, TotalKey(games, nRounds), k)
  {
    var key := TotalKey(games, nRounds);
    var r := SortBy(players, key);
    forall k ensures WithKey(r, key, k) == WithKey(players, key, k) {
      SortByStable(players, key, k);
    }
    r
  }

  /** `sortedPlayers.slice(0, 3)`. */
  function Podium(sorted: seq<PlayerData>): (r: seq<PlayerData>)
    ensures |r| == Min(3, |sorted|)
    ensures r == sorted[..|r|]
  {
    sorted[..Min(3, |sorted|)]
  }

  /** Nobody off the podium has a lower total than anyone on it. */
  lemma PodiumIsBest(players: seq<PlayerData>, games: seq<MiniGame>, nRounds: nat)
    ensures var sorted := SortedPlayers(players, games, nRounds);
            var podium := Podium(sorted);
            forall i, j :: 0 <= i < |podium| <= j < |sorted| ==> Total(podium[i], games, nRounds) <= Total(sorted[j], games, nRounds)
  {
  }

  /** `finalRoundHasScores`: some player has a positive score in the last round. */
  predicate FinalRoundHasScores(players: seq<PlayerData>, nRounds: nat) {
    HasScoresIn(players, nRounds - 1)
  }

  /** When the podium is shown the carousel opens on the final round. */
  lemma PodiumShownMeansFinalRoundActive(players: seq<PlayerData>, nRounds: nat)
    requires FinalRoundHasScores(players, nRounds)
    ensures nRounds > 0 && RoundInfo.ActiveTarget(players, nRounds) == nRounds - 1
  {
    RoundInfo.ActiveTargetProperties(players, nRounds);
  }

  /** A team's name and total. */
  datatype TeamTotal = TeamTotal(team: TeamChoice, total: int)

  function TeamTotalKey(t: TeamTotal): int {
    t.total
  }

  predicate On(assignments: map<PlayerId, TeamChoice>, id: PlayerId, team: TeamChoice) {
    id in assignments && assignments[id] == team
  }

  /** Sum of the totals of the players assigned to `team`. */
  function TeamSum(players: seq<PlayerData>, assignments: map<PlayerId, TeamChoice>, team: TeamChoice,
                   games: seq<MiniGame>, nRounds: nat): int
  {
    if players == [] then 0
    else
      var p := players[|players| - 1];
      TeamSum(players[..|players| - 1], assignments, team, games, nRounds)
        + (if On(assignments, p.id, team) then Total(p, games, nRounds) else 0)
  }

  function AllTotals(players: seq<PlayerData>, games: seq<MiniGame>, nRounds: nat): int {
    if players == [] then 0
    else AllTotals(players[..|players| - 1], games, nRounds) + Total(players[|players| - 1], games, nRounds)
  }

  function Unassigned(players: seq<PlayerData>, assignments: map<PlayerId, TeamChoice>,
                      games: seq<MiniGame>, nRounds: nat): int
  {
    if players == [] then 0
    else
      var p := players[|players| - 1];
      Unassigned(players[..|players| - 1], assignments, games, nRounds)
        + (if On(assignments, p.id, Red) || On(assignments, p.id, Green) then 0 else Total(p, games, nRounds))
  }

  /** The two team totals and the totals of players on neither team add up
      to the sum of all totals: every player is counted once. */
  lemma {:induction false} TeamSumsPartition(players: seq<PlayerData>, assignments: map<PlayerId, TeamChoice>,
                                             games: seq<MiniGame>, nRounds: nat)
    ensures TeamSum(players, assignments, Red, games, nRounds) + TeamSum(players, assignments, Green, games, nRounds)
            + Unassigned(players, assignments, games, nRounds) == AllTotals(players, games, nRounds)
  {
    if players != [] {
      TeamSumsPartition(players[..|players| - 1], assignments, games, nRounds);
    }
  }

  /** `teamStandings` as written: the assignments are read without a guard,
      so a tournament without team data and with at least one player fails
      (None). */
  function TeamStandingsAsWritten(players: seq<PlayerData>, teamData: Option<map<PlayerId, TeamChoice>>,
                                  games: seq<MiniGame>, nRounds: nat): Option<seq<TeamTotal>>
  {
    if teamData.None? && |players| > 0 then None
    else Some(TeamStandings(players, teamData, games, nRounds))
  }

  /** A tournament created without teams fails here as soon as it has a player. */
  lemma TeamStandingsAsWrittenFailsWithoutTeams(p: PlayerData, games: seq<MiniGame>, nRounds: nat)
    ensures TeamStandingsAsWritten([p], None, games, nRounds).None?
  {
  }

  /** `teamStandings` with the missing team data read as no assignments: red
      and green with their sums, ascending by total, red first on a tie. */
  function TeamStandings(players: seq<PlayerData>, teamData: Option<map<PlayerId, TeamChoice>>,
                         games: seq<MiniGame>, nRounds: nat): seq<TeamTotal>
  {
    var assignments := teamData.GetOr(map[]);
    SortBy([TeamTotal(Red, TeamSum(players, assignments, Red, games, nRounds)),
            TeamTotal(Green, TeamSum(players, assignments, Green, games, nRounds))], TeamTotalKey)
  }

  /** The corrected team standings always exist, hold one entry per team with
      its sum, in ascending order, and agree with the original whenever that
      one does not fail. */
  lemma TeamStandingsProperties(players: seq<PlayerData>, teamData: Option<map<PlayerId, TeamChoice>>,
                                games: seq<MiniGame>, nRounds: nat)
    ensures var assignments := teamData.GetOr(map[]);
            var red := TeamTotal(Red, TeamSum(players, assignments, Red, games, nRounds));
            var green := TeamTotal(Green, TeamSum(players, assignments, Green, games, nRounds));
            TeamStandings(players, teamData, games, nRounds)
              == if green.total < red.total then [green, red] else [red, green]
    ensures teamData.Some? || players == [] ==>
      TeamStandingsAsWritten(players, teamData, games, nRounds) == Some(TeamStandings(players, teamData, games, nRounds))
  {
    var assignments := teamData.GetOr(map[]);
    SortTwo(TeamTotal(Red, TeamSum(players, assignments, Red, games, nRounds)),
            TeamTotal(Green, TeamSum(players, assignments, Green, games, nRounds)));
  }

  /** Without team data both teams are listed with a total of 0. */
  lemma TeamStandingsWithoutTeams(players: seq<PlayerData>, games: seq<MiniGame>, nRounds: nat)
    ensures TeamStandings(players, None, games, nRounds)
              == [TeamTotal(Red, 0), TeamTotal(Green, 0)]
  {
    NoOneOnATeam(players, Red, games, nRounds);
    NoOneOnATeam(players, Green, games, nRounds);
    SortTwo(TeamTotal(Red, 0), TeamTotal(Green, 0));
  }

  /** Two team totals sorted: the lower first, the first one on a tie. */
  lemma SortTwo(a: TeamTotal, b: TeamTotal)
    ensures SortBy([a, b], TeamTotalKey) == if b.total < a.total then [b, a] else [a, b]
  {
    var s := [a, b];
    assert s[1..] == [b];
    assert [b][1..] == [];
    assert SortBy([b], TeamTotalKey) == Insert(b, [], TeamTotalKey) == [b];
    assert SortBy(s, TeamTotalKey) == Insert(a, [b], TeamTotalKey);
  }

  lemma {:induction false} NoOneOnATeam(players: seq<PlayerData>, team: TeamChoice, games: seq<MiniGame>, nRounds: nat)
    ensures TeamSum(players, map[], team, games, nRounds) == 0
  {
    if players != [] {
      NoOneOnATeam(players[..|players| - 1], team, games, nRounds);
    }
  }

  /** The position badge next to a player's name. */
  datatype Badge = NoBadge | Improved(places: int) | Dropped(places: int)

  /** The badge for the player at `index` of the table: hidden when the second
      round's score is 0 (a missing second round does not hide it), when there
      is no previous standing or the player is not in it, and when the
      position did not change. */
  function DeltaBadge(p: PlayerData, index: nat, prev: seq<PlayerId>): Badge {
    var prevPos := IndexOf(prev, p.id);
    if |p.scores| > 1 && p.scores[1] == 0 then NoBadge
    else if |prev| == 0 || prevPos == -1 then NoBadge
    else if index < prevPos then Improved(prevPos - index)
    else if index > prevPos then Dropped(prevPos - index)
    else NoBadge
  }

  /** A badge shows exactly when the guard passes, the player was listed
      before and moved; its number is previous index minus current index,
      positive for a climb and negative for a drop. */
  lemma DeltaBadgeRule(p: PlayerData, index: nat, prev: seq<PlayerId>)
    ensures DeltaBadge(p, index, prev) != NoBadge <==>
      !(|p.scores| > 1 && p.scores[1] == 0) && p.id in prev && IndexOf(prev, p.id) != index
    ensures DeltaBadge(p, index, prev).Improved? ==>
      DeltaBadge(p, index, prev).places > 0 && prev[index + DeltaBadge(p, index, prev).places] == p.id
      && IndexOf(prev, p.id) == index + DeltaBadge(p, index, prev).places
    ensures DeltaBadge(p, index, prev).Dropped? ==>
      DeltaBadge(p, index, prev).places < 0 && index + DeltaBadge(p, index, prev).places >= 0
      && prev[index + DeltaBadge(p, index, prev).places] == p.id
      && IndexOf(prev, p.id) == index + DeltaBadge(p, index, prev).places
  {
  }

  /** With a single round there is no second score to hide the badge: a
      player listed third before and first now shows a climb of two. */
  lemma SingleRoundStillShowsBadge(id: PlayerId)
    ensures DeltaBadge(PlayerData(id, "", None, [5], []), 0, [id + 1, id + 2, id]) == Improved(2)
  {
    assert IndexOf([id + 1, id + 2, id], id) == 2 by {
      assert [id + 1, id + 2, id][1..] == [id + 2, id];
      assert [id + 2, id][1..] == [id];
    }
  }

  /** One row of the standings table. */
  datatype Row = Row(position: nat, id: PlayerId, scores: seq<int>, deduction: int, total: int, badge: Badge)

  /** The table body: one row per sorted player with position index + 1, the
      deduction recomputed per row and the total equal to
      `getTotalWithDeduction` of that player. */
  method StandingRows(players: seq<PlayerData>, games: seq<MiniGame>, nRounds: nat, prev: seq<PlayerId>)
    returns (rows: seq<Row>)
    ensures var sorted := SortedPlayers(players, games, nRounds);
            && |rows| == |sorted|
            && forall i :: 0 <= i < |rows| ==>
                 && rows[i].position == i + 1
                 && rows[i].id == sorted[i].id
                 && rows[i].total == Total(sorted[i], games, nRounds)
                 && rows[i].deduction == Deduction(games, sorted[i].miniGameScores, nRounds)
                 && rows[i].badge == DeltaBadge(sorted[i], i, prev)
  {
    var sorted := SortedPlayers(players, games, nRounds);
    rows := [];
    for index := 0 to |sorted|
      invariant |rows| == index
      invariant forall i :: 0 <= i < index ==>
                 && rows[i].position == i + 1
                 && rows[i].id == sorted[i].id
                 && rows[i].total == Total(sorted[i], games, nRounds)
                 && rows[i].deduction == Deduction(games, sorted[i].miniGameScores, nRounds)
                 && rows[i].badge == DeltaBadge(sorted[i], i, prev)
    {
      var player := sorted[index];
      var rawTotal := Sum(player.scores);
      var deduction := DeductionOf(player.miniGameScores, games, nRounds);
      var total := rawTotal - deduction;
      rows := rows + [Row(index + 1, player.id, player.scores, deduction, total, DeltaBadge(player, index, prev))];
    }
  }
}
