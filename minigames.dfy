/** The mini-game leaderboard: per game and total star counts for every
    player, a descending sort, competition ranks (1, 1, 3) and the split into
    podium (rank at most 3) and the other players. */
module MiniGameBoard {
  import opened Common
  import opened Sorting

  /** One leaderboard entry: `{ id, name, total, breakdown }`. */
  datatype PlayerScore = PlayerScore(id: PlayerId, name: string, total: int, breakdown: map<string, int>)

  /** An entry with the rank the ranking loop wrote on it. */
  datatype Ranked = Ranked(entry: PlayerScore, rank: int)

  /** A player's stars for one game over the first n recorded rounds. */
  function GameStars(mgs: seq<Option<map<string, int>>>, name: string, n: nat): int {
    if n == 0 then 0 else GameStars(mgs, name, n - 1) + Stars(mgs, n - 1, name)
  }

  /** `breakdown`: one key per game name; a later game of the same name
      overwrites the earlier one with the same value. */
  function Breakdown(games: seq<MiniGame>, mgs: seq<Option<map<string, int>>>): map<string, int> {
    if games == [] then map[]
    else
      var g := games[|games| - 1];
      Breakdown(games[..|games| - 1], mgs)[g.name := GameStars(mgs, g.name, |mgs|)]
  }

  /** `total`: one game's stars added per game of the list. */
  function StarTotal(games: seq<MiniGame>, mgs: seq<Option<map<string, int>>>): int {
    if games == [] then 0
    else StarTotal(games[..|games| - 1], mgs) + GameStars(mgs, games[|games| - 1].name, |mgs|)
  }

  /** The sum of `breakdown[g.name]` over the games of the list. */
  function BreakdownSum(games: seq<MiniGame>, b: map<string, int>): int {
    if games == [] then 0
    else
      var g := games[|games| - 1];
      BreakdownSum(games[..|games| - 1], b) + (if g.name in b then b[g.name] else 0)
  }

  /** `breakdown` names exactly the games, each with its star sum over all
      recorded rounds (a missing value as 0). */
  lemma {:induction false} BreakdownSpec(games: seq<MiniGame>, mgs: seq<Option<map<string, int>>>, name: string)
    ensures name in Breakdown(games, mgs) <==> exists g :: g in games && g.name == name
    ensures name in Breakdown(games, mgs) ==> Breakdown(games, mgs)[name] == GameStars(mgs, name, |mgs|)
  {
    if games != [] {
      var n := |games| - 1;
      BreakdownSpec(games[..n], mgs, name);
      assert games == games[..n] + [games[n]];
      if name != games[n].name && name in Breakdown(games, mgs) {
        var g :| g in games[..n] && g.name == name;
        assert g in games;
      }
    }
  }

  /** `total` is the sum of `breakdown` over all games. */
  lemma {:induction false} TotalIsSumOfBreakdown(games: seq<MiniGame>, mgs: seq<Option<map<string, int>>>)
    ensures StarTotal(games, mgs) == BreakdownSum(games, Breakdown(games, mgs))
  {
    var b := Breakdown(games, mgs);
    forall k | 0 <= k < |games|
      ensures games[k].name in b && b[games[k].name] == GameStars(mgs, games[k].name, |mgs|)
    {
      BreakdownSpec(games, mgs, games[k].name);
    }
    SumAgainstFullBreakdown(games, mgs, b);
  }

  lemma {:induction false} SumAgainstFullBreakdown(games: seq<MiniGame>, mgs: seq<Option<map<string, int>>>, b: map<string, int>)
    requires forall k :: 0 <= k < |games| ==> games[k].name in b && b[games[k].name] == GameStars(mgs, games[k].name, |mgs|)
    ensures StarTotal(games, mgs) == BreakdownSum(games, b)
  {
    if games != [] {
      SumAgainstFullBreakdown(games[..|games| - 1], mgs, b);
    }
  }

  /** The entry of one player: the spec of the per-player loops. */
  function ScoreOf(p: PlayerData, games: seq<MiniGame>): PlayerScore {
    PlayerScore(p.id, p.name, StarTotal(games, p.miniGameScores), Breakdown(games, p.miniGameScores))
  }

  /** The per-player loops: for each game add up the recorded rounds, store
      the sum under the game's name and add it to the total. */
  method PlayerScoreOf(p: PlayerData, games: seq<MiniGame>) returns (ps: PlayerScore)
    ensures ps == ScoreOf(p, games)
  {
    var mgs := p.miniGameScores;
    var total := 0;
    var breakdown: map<string, int> := map[];
    for gi := 0 to |games|
      invariant total == StarTotal(games[..gi], mgs)
      invariant breakdown == Breakdown(games[..gi], mgs)
    {
      assert games[..gi + 1][..gi] == games[..gi];
      var mini := games[gi];
      var score := 0;
      for roundIdx := 0 to |mgs|
        invariant score == GameStars(mgs, mini.name, roundIdx)
      {
        score := score + Stars(mgs, roundIdx, mini.name);
      }
      breakdown := breakdown[mini.name := score];
      total := total + score;
    }
    assert games[..|games|] == games;
    ps := PlayerScore(p.id, p.name, total, breakdown);
  }

  /** `playerScores`, one entry per player in input order. */
  method PlayerScores(players: seq<PlayerData>, games: seq<MiniGame>) returns (scores: seq<PlayerScore>)
    ensures |scores| == |players|
    ensures forall i :: 0 <= i < |players| ==> scores[i] == ScoreOf(players[i], games)
  {
    scores := [];
    for i := 0 to |players|
      invariant |scores| == i
      invariant forall k :: 0 <= k < i ==> scores[k] == ScoreOf(players[k], games)
    {
      var ps := PlayerScoreOf(players[i], games);
      scores := scores + [ps];
    }
  }

  function NegTotal(s: PlayerScore): int {
    -s.total
  }

  /** `sort((a, b) => b.total - a.total)`: descending, ties in input order. */
  function SortedDescending(scores: seq<PlayerScore>): (r: seq<PlayerScore>)
    ensures multiset(r) == multiset(scores)
    ensures forall i, j :: 0 <= i < j < |r| ==> r[i].total >= r[j].total
    ensures forall k :: WithKey(r, NegTotal, k) == WithKey(scores, NegTotal, k)
  {
    var r := SortBy(scores, NegTotal);
    assert forall i, j :: 0 <= i < j < |r| ==> NegTotal(r[i]) <= NegTotal(r[j]);
    forall k ensures WithKey(r, NegTotal, k) == WithKey(scores, NegTotal, k) {
      SortByStable(scores, NegTotal, k);
    }
    r
  }

  /** Competition rank of entry i: equal to the previous entry's rank when
      the totals are equal, i + 1 otherwise. */
  function Rank(sorted: seq<PlayerScore>, i: nat): int
    requires i < |sorted|
  {
    if i == 0 then 1
    else if sorted[i].total == sorted[i - 1].total then Rank(sorted, i - 1)
    else i + 1
  }

  /** The ranking loop: `currentRank`, `skip` and `prevScore` carried along,
      each entry labelled with its rank. */
  method AssignRanks(sorted: seq<PlayerScore>) returns (ranked: seq<Ranked>)
    ensures |ranked| == |sorted|
    ensures forall i :: 0 <= i < |sorted| ==> ranked[i] == Ranked(sorted[i], Rank(sorted, i))
  {
    var currentRank := 1;
    var prevScore: Option<int> := None;
    var skip := 0;
    ranked := [];
    for i := 0 to |sorted|
      invariant |ranked| == i
      invariant forall k :: 0 <= k < i ==> ranked[k] == Ranked(sorted[k], Rank(sorted, k))
      invariant currentRank + skip == i + 1
      invariant i == 0 ==> prevScore == None && currentRank == 1
      invariant i > 0 ==> prevScore == Some(sorted[i - 1].total) && currentRank == Rank(sorted, i - 1)
    {
      var p := sorted[i];
      if prevScore != Some(p.total) {
        currentRank := currentRank + skip;
        skip := 1;
      } else {
        skip := skip + 1;
      }
      ranked := ranked + [Ranked(p, currentRank)];
      prevScore := Some(p.total);
    }
  }

  /** Example: totals 7, 7, 5 rank 1, 1, 3. */
  lemma RanksOfSevenSevenFive(a: PlayerScore, b: PlayerScore, c: PlayerScore)
    requires a.total == 7 && b.total == 7 && c.total == 5
    ensures Rank([a, b, c], 0) == 1 && Rank([a, b, c], 1) == 1 && Rank([a, b, c], 2) == 3
  {
  }

  /** Number of the first k entries whose total is greater than x. */
  function CountAbove(sorted: seq<PlayerScore>, k: nat, x: int): nat
    requires k <= |sorted|
  {
    if k == 0 then 0 else CountAbove(sorted, k - 1, x) + (if sorted[k - 1].total > x then 1 else 0)
  }

  lemma {:induction false} CountAboveAll(sorted: seq<PlayerScore>, k: nat, x: int)
    requires k <= |sorted|
    requires forall j :: 0 <= j < k ==> sorted[j].total > x
    ensures CountAbove(sorted, k, x) == k
  {
    if k > 0 {
      CountAboveAll(sorted, k - 1, x);
    }
  }

  lemma {:induction false} CountAboveNoneFrom(sorted: seq<PlayerScore>, lo: nat, k: nat, x: int)
    requires lo <= k <= |sorted|
    requires forall j :: lo <= j < k ==> sorted[j].total <= x
    ensures CountAbove(sorted, k, x) == CountAbove(sorted, lo, x)
  {
    if k > lo {
      CountAboveNoneFrom(sorted, lo, k - 1, x);
    }
  }

  predicate Descending(sorted: seq<PlayerScore>) {
    forall i, j :: 0 <= i < j < |sorted| ==> sorted[i].total >= sorted[j].total
  }

  /** On a descending list the competition rank is one more than the number
      of players with a strictly greater total. */
  lemma {:induction false} RankCountsGreater(sorted: seq<PlayerScore>, i: nat)
    requires Descending(sorted) && i < |sorted|
    ensures Rank(sorted, i) == 1 + CountAbove(sorted, |sorted|, sorted[i].total)
  {
    var x := sorted[i].total;
    if i == 0 {
      CountAboveNoneFrom(sorted, 0, |sorted|, x);
    } else if sorted[i].total == sorted[i - 1].total {
      RankCountsGreater(sorted, i - 1);
    } else {
      CountAboveAll(sorted, i, x);
      CountAboveNoneFrom(sorted, i, |sorted|, x);
    }
  }

  lemma {:induction false} RankBounds(sorted: seq<PlayerScore>, i: nat)
    requires i < |sorted|
    ensures 1 <= Rank(sorted, i) <= i + 1
  {
    if i > 0 && sorted[i].total == sorted[i - 1].total {
      RankBounds(sorted, i - 1);
    }
  }

  /** Ranks never decrease along the list. */
  lemma {:induction false} RanksNonDecreasing(sorted: seq<PlayerScore>, i: nat, j: nat)
    requires i <= j < |sorted|
    ensures Rank(sorted, i) <= Rank(sorted, j)
    decreases j
  {
    if i < j {
      RanksNonDecreasing(sorted, i, j - 1);
      RankBounds(sorted, j - 1);
    }
  }

  /** Entries with rank at most 3, in list order. */
  function PodiumOf(ranked: seq<Ranked>): seq<Ranked> {
    if ranked == [] then []
    else
      (if ranked[0].rank <= 3 then [ranked[0]] else []) + PodiumOf(ranked[1..])
  }

  /** Entries with rank above 3, in list order. */
  function RestOf(ranked: seq<Ranked>): seq<Ranked> {
    if ranked == [] then []
    else
      (if ranked[0].rank > 3 then [ranked[0]] else []) + RestOf(ranked[1..])
  }

  /** The podium holds exactly the entries of rank at most 3, the rest
      exactly those above 3. */
  lemma {:induction false} SplitMembers(ranked: seq<Ranked>, x: Ranked)
    ensures x in PodiumOf(ranked) <==> x in ranked && x.rank <= 3
    ensures x in RestOf(ranked) <==> x in ranked && x.rank > 3
  {
    if ranked != [] {
      SplitMembers(ranked[1..], x);
      assert ranked == [ranked[0]] + ranked[1..];
    }
  }

  predicate RanksAscending(ranked: seq<Ranked>) {
    forall i, j :: 0 <= i < j < |ranked| ==> ranked[i].rank <= ranked[j].rank
  }

  lemma {:induction false} AllAboveThreeIsRest(ranked: seq<Ranked>)
    requires forall i :: 0 <= i < |ranked| ==> ranked[i].rank > 3
    ensures PodiumOf(ranked) == [] && RestOf(ranked) == ranked
  {
    if ranked != [] {
      AllAboveThreeIsRest(ranked[1..]);
    }
  }

  lemma AscendingTail(ranked: seq<Ranked>)
    requires ranked != [] && RanksAscending(ranked)
    ensures RanksAscending(ranked[1..])
  {
    var t := ranked[1..];
    forall i, j | 0 <= i < j < |t| ensures t[i].rank <= t[j].rank {
      assert t[i] == ranked[i + 1] && t[j] == ranked[j + 1];
    }
  }

  /** A head of rank at most 3 opens the podium and stays out of the rest. */
  lemma PodiumHead(ranked: seq<Ranked>)
    requires ranked != [] && ranked[0].rank <= 3
    ensures PodiumOf(ranked) == [ranked[0]] + PodiumOf(ranked[1..])
    ensures RestOf(ranked) == RestOf(ranked[1..])
  {
    assert [] + RestOf(ranked[1..]) == RestOf(ranked[1..]);
  }

  /** With ranks in ascending order the podium is a prefix and the rest the
      remaining suffix: together they are the ranked list, in order. */
  lemma {:induction false} PodiumThenRest(ranked: seq<Ranked>)
    requires RanksAscending(ranked)
    ensures PodiumOf(ranked) + RestOf(ranked) == ranked
  {
    if ranked != [] {
      if ranked[0].rank <= 3 {
        var t := ranked[1..];
        AscendingTail(ranked);
        PodiumThenRest(t);
        PodiumHead(ranked);
        calc {
          PodiumOf(ranked) + RestOf(ranked);
          ([ranked[0]] + PodiumOf(t)) + RestOf(t);
          [ranked[0]] + (PodiumOf(t) + RestOf(t));
          [ranked[0]] + t;
          ranked;
        }
      } else {
        AllAboveThreeIsRest(ranked);
      }
    }
  }

  /** The ranked leaderboard for a list of players. */
  function RankedBoard(players: seq<PlayerData>, games: seq<MiniGame>): (r: seq<Ranked>)
  {
    var sorted := SortedDescending(seq(|players|, i requires 0 <= i < |players| => ScoreOf(players[i], games)));
    seq(|sorted|, i requires 0 <= i < |sorted| => Ranked(sorted[i], Rank(sorted, i)))
  }

  /** Four players tied on stars all rank first, so the podium holds four. */
  lemma TiesLengthenThePodium(a: PlayerScore)
    ensures var sorted := [a, a, a, a];
            Rank(sorted, 1) == 1 && Rank(sorted, 2) == 1 && Rank(sorted, 3) == 1
    ensures |PodiumOf([Ranked(a, 1), Ranked(a, 1), Ranked(a, 1), Ranked(a, 1)])| == 4
  {
    var r := Ranked(a, 1);
    assert [r, r, r, r][1..] == [r, r, r];
    assert [r, r, r][1..] == [r, r];
    assert [r, r][1..] == [r];
    assert [r][1..] == [];
    assert PodiumOf([r]) == [r];
    assert PodiumOf([r, r]) == [r, r];
    assert PodiumOf([r, r, r]) == [r, r, r];
  }

  /** The whole board: entries, descending sort, ranks, then the podium and
      the rest. Every entry carries 1 + the number of strictly better
      players as its rank, and podium followed by rest is the sorted list. */
  method Leaderboard(players: seq<PlayerData>, games: seq<MiniGame>) returns (podium: seq<Ranked>, rest: seq<Ranked>)
    ensures podium + rest == RankedBoard(players, games)
    ensures forall x :: x in podium ==> x.rank <= 3
    ensures forall x :: x in rest ==> x.rank > 3
    ensures var sorted := SortedDescending(seq(|players|, i requires 0 <= i < |players| => ScoreOf(players[i], games)));
            forall i :: 0 <= i < |sorted| ==> RankedBoard(players, games)[i].rank == 1 + CountAbove(sorted, |sorted|, sorted[i].total)
  {
    var scores := PlayerScores(players, games);
    ghost var spec := seq(|players|, i requires 0 <= i < |players| => ScoreOf(players[i], games));
    assert scores == spec;
    var sorted := SortedDescending(scores);
    var ranked := AssignRanks(sorted);
    assert ranked == RankedBoard(players, games);
    forall i, j | 0 <= i < j < |ranked| ensures ranked[i].rank <= ranked[j].rank {
      RanksNonDecreasing(sorted, i, j);
    }
    PodiumThenRest(ranked);
    podium := PodiumOf(ranked);
    rest := RestOf(ranked);
    forall x | x in podium ensures x.rank <= 3 {
      SplitMembers(ranked, x);
    }
    forall x | x in rest ensures x.rank > 3 {
      SplitMembers(ranked, x);
    }
    forall i | 0 <= i < |sorted| ensures ranked[i].rank == 1 + CountAbove(sorted, |sorted|, sorted[i].total) {
      RankCountsGreater(sorted, i);
    }
  }
}
