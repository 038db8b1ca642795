/** The "my tournaments" list: every stored score is grouped under the
    tournament its round belongs to, totalled per player, and each
    tournament's leaderboard is sorted ascending by total; the card shows the
    first three entries. The stored rows arrive as input sequences. */
module TournamentList {
  import opened Common
  import opened Sorting
  import ScoreEntry

  type ScoreRecord = ScoreEntry.ScoreRecord

  /** A stored round row, reduced to the two columns the list reads. */
  datatype RoundLink = RoundLink(id: RoundId, tournamentId: TournamentId)

  /** One leaderboard line. */
  datatype Standing = Standing(playerId: PlayerId, total: int)

  // ------------------------------------------------------- round → tournament

  /** `roundToTournament`: each round row writes its tournament under its id,
      a later row with the same id overwriting an earlier one. */
  function RoundMap(rounds: seq<RoundLink>): (m: map<RoundId, TournamentId>)
    ensures forall r :: r in m <==> exists k :: 0 <= k < |rounds| && rounds[k].id == r
  {
    if rounds == [] then map[]
    else
      var last := rounds[|rounds| - 1];
      var init := RoundMap(rounds[..|rounds| - 1]);
      assert forall k :: 0 <= k < |rounds| - 1 ==> rounds[..|rounds| - 1][k] == rounds[k];
      init[last.id := last.tournamentId]
  }

  /** The last row naming a round decides its tournament. */
  lemma {:induction false} RoundMapLastWins(rounds: seq<RoundLink>, k: nat)
    requires k < |rounds|
    requires forall j :: k < j < |rounds| ==> rounds[j].id != rounds[k].id
    ensures rounds[k].id in RoundMap(rounds) && RoundMap(rounds)[rounds[k].id] == rounds[k].tournamentId
  {
    if k < |rounds| - 1 {
      var init := rounds[..|rounds| - 1];
      assert init[k] == rounds[k];
      RoundMapLastWins(init, k);
    }
  }

  method BuildRoundMap(rounds: seq<RoundLink>) returns (m: map<RoundId, TournamentId>)
    ensures m == RoundMap(rounds)
  {
    m := map[];
    var i := 0;
    while i < |rounds|
      invariant 0 <= i <= |rounds|
      invariant m == RoundMap(rounds[..i])
    {
      assert rounds[..i + 1][..i] == rounds[..i];
      m := m[rounds[i].id := rounds[i].tournamentId];
      i := i + 1;
    }
    assert rounds[..|rounds|] == rounds;
  }

  // ------------------------------------------------------------ score grouping

  /** The tournament a score is filed under: its round must be known and map
      to a truthy (non-zero) tournament id. */
  function TournamentOf(rt: map<RoundId, TournamentId>, s: ScoreRecord): Option<TournamentId> {
    if s.roundId in rt && rt[s.roundId] != 0 then Some(rt[s.roundId]) else None
  }

  /** The scores filed under tournament t, in their stored order. */
  function Kept(scores: seq<ScoreRecord>, rt: map<RoundId, TournamentId>, t: TournamentId): seq<ScoreRecord> {
    if scores == [] then []
    else
      var last := scores[|scores| - 1];
      var init := Kept(scores[..|scores| - 1], rt, t);
      if TournamentOf(rt, last) == Some(t) then init + [last] else init
  }

  /** A score is kept for t exactly when it is stored and filed under t. */
  lemma {:induction false} KeptMembers(scores: seq<ScoreRecord>, rt: map<RoundId, TournamentId>, t: TournamentId)
    ensures forall s :: s in Kept(scores, rt, t) <==> s in scores && TournamentOf(rt, s) == Some(t)
  {
    if scores != [] {
      var init := scores[..|scores| - 1];
      KeptMembers(init, rt, t);
      assert scores == init + [scores[|scores| - 1]];
    }
  }

  /** `scoreMap`: an empty list per listed tournament, then each score pushed
      onto the list of the tournament it is filed under, when that one is
      listed. */
  function ScoreMap(tids: seq<TournamentId>, rt: map<RoundId, TournamentId>, scores: seq<ScoreRecord>): map<TournamentId, seq<ScoreRecord>> {
    map t | t in tids :: Kept(scores, rt, t)
  }

  method GroupScores(tids: seq<TournamentId>, rt: map<RoundId, TournamentId>, scores: seq<ScoreRecord>)
    returns (scoreMap: map<TournamentId, seq<ScoreRecord>>)
    ensures scoreMap == ScoreMap(tids, rt, scores)
  {
    scoreMap := map[];
    for i := 0 to |tids|
      invariant scoreMap == map t | t in tids[..i] :: []
    {
      assert tids[..i + 1] == tids[..i] + [tids[i]];
      scoreMap := scoreMap[tids[i] := []];
    }
    assert tids[..|tids|] == tids;
    assert scoreMap == map t | t in tids :: Kept(scores[..0], rt, t);
    for j := 0 to |scores|
      invariant scoreMap == map t | t in tids :: Kept(scores[..j], rt, t)
    {
      var s := scores[j];
      assert scores[..j + 1][..j] == scores[..j];
      assert scores[..j + 1][j] == s;
      var tid := TournamentOf(rt, s);
      if tid.Some? && tid.value in scoreMap {
        scoreMap := scoreMap[tid.value := scoreMap[tid.value] + [s]];
      }
    }
    assert scores[..|scores|] == scores;
  }

  /** A score whose round is unknown, whose tournament id is falsy, or whose
      tournament is not listed lands in no listed tournament's group. */
  lemma DroppedScore(tids: seq<TournamentId>, rt: map<RoundId, TournamentId>, scores: seq<ScoreRecord>, s: ScoreRecord)
    requires TournamentOf(rt, s) == None || TournamentOf(rt, s).value !in tids
    ensures forall t :: t in ScoreMap(tids, rt, scores) ==> s !in ScoreMap(tids, rt, scores)[t]
  {
    forall t | t in tids ensures s !in Kept(scores, rt, t) {
      KeptMembers(scores, rt, t);
    }
  }

  // ----------------------------------------------------------- player totals

  /** The players of a group in order of first appearance (the insertion
      order of `playerTotals`). */
  function Players(scores: seq<ScoreRecord>): seq<PlayerId> {
    if scores == [] then []
    else
      var p := Players(scores[..|scores| - 1]);
      var id := scores[|scores| - 1].playerId;
      if id in p then p else p + [id]
  }

  /** The sum of a player's scores in the group. */
  function TotalFor(scores: seq<ScoreRecord>, id: PlayerId): int {
    if scores == [] then 0
    else
      var last := scores[|scores| - 1];
      TotalFor(scores[..|scores| - 1], id) + (if last.playerId == id then last.score else 0)
  }

  predicate Distinct(ids: seq<PlayerId>) {
    forall i, j :: 0 <= i < j < |ids| ==> ids[i] != ids[j]
  }

  /** Each player of the group is listed once, and no one else. */
  lemma {:induction false} PlayersOnce(scores: seq<ScoreRecord>)
    ensures Distinct(Players(scores))
    ensures forall id :: id in Players(scores) <==> HasScore(scores, id)
  {
    if scores != [] {
      var init := scores[..|scores| - 1];
      PlayersOnce(init);
      forall id ensures id in Players(scores) <==> HasScore(scores, id) {
        if HasScore(init, id) {
          var k :| 0 <= k < |init| && init[k].playerId == id;
          assert scores[k] == init[k];
        }
        if HasScore(scores, id) {
          var k :| 0 <= k < |scores| && scores[k].playerId == id;
          if k < |init| {
            assert init[k] == scores[k];
          }
        }
      }
    }
  }

  /** Totals split over concatenated groups. */
  lemma {:induction false} TotalForAppend(a: seq<ScoreRecord>, b: seq<ScoreRecord>, id: PlayerId)
    ensures TotalFor(a + b, id) == TotalFor(a, id) + TotalFor(b, id)
  {
    if b == [] {
      assert a + b == a;
    } else {
      var ab := a + b;
      assert ab[..|ab| - 1] == a + b[..|b| - 1];
      assert ab[|ab| - 1] == b[|b| - 1];
      TotalForAppend(a, b[..|b| - 1], id);
    }
  }

  /** A player with no score in the group totals 0. */
  lemma {:induction false} TotalForAbsent(scores: seq<ScoreRecord>, id: PlayerId)
    requires forall k :: 0 <= k < |scores| ==> scores[k].playerId != id
    ensures TotalFor(scores, id) == 0
  {
    if scores != [] {
      TotalForAbsent(scores[..|scores| - 1], id);
    }
  }

  /** `playerTotals`: a player's entry is (re)set to 0 when missing or 0, and
      then the score is added. */
  method AccumulateTotals(scores: seq<ScoreRecord>) returns (order: seq<PlayerId>, totals: map<PlayerId, int>)
    ensures order == Players(scores)
    ensures forall id :: id in totals <==> id in order
    ensures forall id :: id in totals ==> totals[id] == TotalFor(scores, id)
  {
    order := [];
    totals := map[];
    for i := 0 to |scores|
      invariant order == Players(scores[..i])
      invariant forall id :: id in totals <==> id in order
      invariant forall id :: id in totals ==> totals[id] == TotalFor(scores[..i], id)
    {
      var s := scores[i];
      assert scores[..i + 1][..i] == scores[..i];
      assert scores[..i + 1][i] == s;
      var known := s.playerId in totals;
      if !known || totals[s.playerId] == 0 {
        totals := totals[s.playerId := 0];
      }
      if !known {
        order := order + [s.playerId];
        PlayersOnce(scores[..i]);
        TotalForAbsent(scores[..i], s.playerId);
      }
      totals := totals[s.playerId := totals[s.playerId] + s.score];
    }
    assert scores[..|scores|] == scores;
  }

  // ------------------------------------------------------------- leaderboard

  function StandingTotal(e: Standing): int {
    e.total
  }

  /** The group's players with their totals, in first-appearance order. */
  function Entries(scores: seq<ScoreRecord>): seq<Standing> {
    var ps := Players(scores);
    seq(|ps|, i requires 0 <= i < |ps| => Standing(ps[i], TotalFor(scores, ps[i])))
  }

  /** `Object.entries(playerTotals).sort((a, b) => a[1] - b[1])`. */
  function Leaderboard(scores: seq<ScoreRecord>): seq<Standing> {
    SortBy(Entries(scores), StandingTotal)
  }

  /** The leaderboard runs from the lowest total to the highest. */
  lemma LeaderboardAscending(scores: seq<ScoreRecord>)
    ensures var lb := Leaderboard(scores);
            forall i, j :: 0 <= i < j < |lb| ==> lb[i].total <= lb[j].total
  {
    var lb := Leaderboard(scores);
    forall i, j | 0 <= i < j < |lb| ensures lb[i].total <= lb[j].total {
      assert StandingTotal(lb[i]) <= StandingTotal(lb[j]);
    }
  }

  /** Each leaderboard line is one of the entries. */
  lemma LineIsEntry(scores: seq<ScoreRecord>, i: nat)
    requires i < |Leaderboard(scores)|
    ensures Leaderboard(scores)[i] in Entries(scores)
  {
    assert Leaderboard(scores)[i] in multiset(Entries(scores));
  }

  /** Each line's total is the sum of that player's scores in the group. */
  lemma LeaderboardTotals(scores: seq<ScoreRecord>)
    ensures var lb := Leaderboard(scores);
            forall i :: 0 <= i < |lb| ==> lb[i].total == TotalFor(scores, lb[i].playerId)
  {
    var lb := Leaderboard(scores);
    forall i | 0 <= i < |lb| ensures lb[i].total == TotalFor(scores, lb[i].playerId) {
      LineIsEntry(scores, i);
    }
  }

  /** No player has two lines. */
  lemma LeaderboardOnce(scores: seq<ScoreRecord>)
    ensures var lb := Leaderboard(scores);
            forall i, j :: 0 <= i < j < |lb| ==> lb[i].playerId != lb[j].playerId
  {
    var lb := Leaderboard(scores);
    forall i, j | 0 <= i < j < |lb| ensures lb[i].playerId != lb[j].playerId {
      EntriesOnce(scores, lb, i, j);
    }
  }

  predicate HasLine(lb: seq<Standing>, id: PlayerId) {
    exists i :: 0 <= i < |lb| && lb[i].playerId == id
  }

  predicate HasScore(scores: seq<ScoreRecord>, id: PlayerId) {
    exists k :: 0 <= k < |scores| && scores[k].playerId == id
  }

  /** Exactly the players with a score in the group have a line. */
  lemma LeaderboardPlayers(scores: seq<ScoreRecord>)
    ensures forall id :: HasLine(Leaderboard(scores), id) <==> HasScore(scores, id)
  {
    var es := Entries(scores);
    var lb := Leaderboard(scores);
    PlayersOnce(scores);
    forall id ensures HasLine(lb, id) <==> id in Players(scores) {
      if id in Players(scores) {
        var k :| 0 <= k < |Players(scores)| && Players(scores)[k] == id;
        assert es[k] in multiset(lb);
        var i :| 0 <= i < |lb| && lb[i] == es[k];
        assert lb[i].playerId == id;
      }
      if HasLine(lb, id) {
        var i :| 0 <= i < |lb| && lb[i].playerId == id;
        LineIsEntry(scores, i);
        var k :| 0 <= k < |es| && es[k] == lb[i];
        assert Players(scores)[k] == id;
      }
    }
  }

  /** Two places of a permutation of the entries hold different players. */
  lemma EntriesOnce(scores: seq<ScoreRecord>, lb: seq<Standing>, i: nat, j: nat)
    requires lb == Leaderboard(scores)
    requires i < j < |lb|
    ensures lb[i].playerId != lb[j].playerId
  {
    var es := Entries(scores);
    var ps := Players(scores);
    PlayersOnce(scores);
    assert lb[i] in multiset(es) && lb[j] in multiset(es);
    var a :| 0 <= a < |es| && es[a] == lb[i];
    var b :| 0 <= b < |es| && es[b] == lb[j];
    if lb[i].playerId == lb[j].playerId {
      assert a == b;
      // the same entry would have to occur twice in lb
      assert multiset(lb)[lb[i]] >= 2 by {
        assert lb == lb[..j] + lb[j..];
        assert lb[..j][i] == lb[i];
        assert lb[j..][0] == lb[i];
      }
      EntryOnce(es, a);
      assert false;
    }
  }

  /** An entry of the distinct-player list occurs once. */
  lemma EntryOnce(es: seq<Standing>, a: nat)
    requires a < |es|
    requires forall x, y :: 0 <= x < y < |es| ==> es[x].playerId != es[y].playerId
    ensures multiset(es)[es[a]] == 1
  {
    var e := es[a];
    assert es == es[..a] + [e] + es[a + 1..];
  }

  /** The card's "Topp 3": the first three leaderboard entries. */
  function TopThree(lb: seq<Standing>): (r: seq<Standing>)
    ensures |r| == Min(3, |lb|)
    ensures r == lb[..|r|]
  {
    if |lb| <= 3 then lb else lb[..3]
  }

  /** No player outside the top three totals less than one inside it. */
  lemma TopThreeAreLowest(scores: seq<ScoreRecord>)
    ensures var lb := Leaderboard(scores);
            var top := TopThree(lb);
            forall i, j :: 0 <= i < |top| <= j < |lb| ==> top[i].total <= lb[j].total
  {
    LeaderboardAscending(scores);
  }

  // ------------------------------------------------------------- aggregation

  /** `aggregated`: each listed tournament's leaderboard. */
  function Aggregated(tids: seq<TournamentId>, rounds: seq<RoundLink>, scores: seq<ScoreRecord>): map<TournamentId, seq<Standing>> {
    map t | t in tids :: Leaderboard(Kept(scores, RoundMap(rounds), t))
  }

  method SortedTotals(scores: seq<ScoreRecord>) returns (lb: seq<Standing>)
    ensures lb == Leaderboard(scores)
  {
    var order, totals := AccumulateTotals(scores);
    forall i | 0 <= i < |order| ensures order[i] in totals {
      var id := order[i];
      assert id in order;
      assert id in totals;
    }
    var entries := seq(|order|, i requires 0 <= i < |order| => Standing(order[i], totals[order[i]]));
    assert entries == Entries(scores);
    lb := SortBy(entries, StandingTotal);
  }

  /** `fetchAllScores` after the queries: every listed tournament gets a
      leaderboard (empty when it has no kept scores), built from the scores
      filed under it. */
  method AggregateScores(tids: seq<TournamentId>, rounds: seq<RoundLink>, scores: seq<ScoreRecord>)
    returns (aggregated: map<TournamentId, seq<Standing>>)
    ensures forall t :: t in aggregated <==> t in tids
    ensures aggregated == Aggregated(tids, rounds, scores)
  {
    var rt := BuildRoundMap(rounds);
    var scoreMap := GroupScores(tids, rt, scores);
    aggregated := map[];
    for i := 0 to |tids|
      invariant aggregated == Boards(tids[..i], rt, scores)
    {
      var t := tids[i];
      assert tids[..i + 1][..i] == tids[..i];
      var lb := SortedTotals(scoreMap[t]);
      aggregated := aggregated[t := lb];
    }
    assert tids[..|tids|] == tids;
    BoardsAreAggregated(tids, rt, scores);
  }

  /** The leaderboards filled in one listed tournament after another. */
  function Boards(tids: seq<TournamentId>, rt: map<RoundId, TournamentId>, scores: seq<ScoreRecord>)
    : map<TournamentId, seq<Standing>>
  {
    if tids == [] then map[]
    else
      var t := tids[|tids| - 1];
      Boards(tids[..|tids| - 1], rt, scores)[t := Leaderboard(Kept(scores, rt, t))]
  }

  lemma BoardsAreAggregated(tids: seq<TournamentId>, rt: map<RoundId, TournamentId>, scores: seq<ScoreRecord>)
    ensures Boards(tids, rt, scores) == map t | t in tids :: Leaderboard(Kept(scores, rt, t))
  {
    var boards := Boards(tids, rt, scores);
    var expected := map t | t in tids :: Leaderboard(Kept(scores, rt, t));
    BoardsPointwise(tids, rt, scores);
    forall t ensures t in boards <==> t in expected {
    }
    forall t | t in boards ensures boards[t] == expected[t] {
    }
    SameMaps(boards, expected);
  }

  /** Two maps with the same keys and the same value under each are equal. */
  lemma SameMaps<K, V>(m: map<K, V>, m': map<K, V>)
    requires forall k :: k in m <==> k in m'
    requires forall k :: k in m ==> m[k] == m'[k]
    ensures m == m'
  {
    assert m.Keys == m'.Keys;
  }

  lemma {:induction false} BoardsPointwise(tids: seq<TournamentId>, rt: map<RoundId, TournamentId>,
                                           scores: seq<ScoreRecord>)
    ensures forall t :: t in Boards(tids, rt, scores) <==> t in tids
    ensures forall t :: t in Boards(tids, rt, scores) ==> Boards(tids, rt, scores)[t] == Leaderboard(Kept(scores, rt, t))
  {
    if tids != [] {
      var init := tids[..|tids| - 1];
      BoardsPointwise(init, rt, scores);
      assert tids == init + [tids[|tids| - 1]];
    }
  }

  /** A listed tournament with no kept scores shows an empty leaderboard
      ("Inga scorer ännu"). */
  lemma NoScoresEmptyBoard(tids: seq<TournamentId>, rounds: seq<RoundLink>, scores: seq<ScoreRecord>, t: TournamentId)
    requires t in tids
    requires forall k :: 0 <= k < |scores| ==> TournamentOf(RoundMap(rounds), scores[k]) != Some(t)
    ensures Aggregated(tids, rounds, scores)[t] == []
  {
    KeptNone(scores, RoundMap(rounds), t);
  }

  lemma {:induction false} KeptNone(scores: seq<ScoreRecord>, rt: map<RoundId, TournamentId>, t: TournamentId)
    requires forall k :: 0 <= k < |scores| ==> TournamentOf(rt, scores[k]) != Some(t)
    ensures Kept(scores, rt, t) == []
  {
    if scores != [] {
      KeptNone(scores[..|scores| - 1], rt, t);
    }
  }
}
