/** The round carousel under the standings: it picks the round to show from
    the scores entered so far, shows (and for scramble rounds stores) the pairs
    of that round, ranks the pairs by their score and steps between rounds. */
module RoundInfo {
  import opened Common
  import opened Sorting
  import Pairing
  import ScoreEntry

  /** The last round before n in which some player has a positive score. */
  function LastScored(players: seq<PlayerData>, n: nat): (r: Option<nat>)
    ensures r.Some? ==> r.value < n && HasScoresIn(players, r.value)
    ensures r.Some? ==> forall j :: r.value < j < n ==> !HasScoresIn(players, j)
    ensures r.None? ==> forall j :: 0 <= j < n ==> !HasScoresIn(players, j)
  {
    if n == 0 then None
    else if HasScoresIn(players, n - 1) then Some(n - 1)
    else LastScored(players, n - 1)
  }

  /** The round the effect selects: one past the last scored round, capped at
      the last round; the first round when nothing is scored. */
  function ActiveTarget(players: seq<PlayerData>, n: nat): nat
    requires n > 0
  {
    match LastScored(players, n)
    case None => 0
    case Some(i) => if i + 1 >= n then n - 1 else i + 1
  }

  /** The selection lies within the rounds; a scored final round selects the
      final round; with nothing scored it is the first round; every round from
      the selected one on (before the cap) is unscored, and the round before
      it is scored. */
  lemma ActiveTargetProperties(players: seq<PlayerData>, n: nat)
    requires n > 0
    ensures ActiveTarget(players, n) < n
    ensures HasScoresIn(players, n - 1) ==> ActiveTarget(players, n) == n - 1
    ensures (forall j :: 0 <= j < n ==> !HasScoresIn(players, j)) ==> ActiveTarget(players, n) == 0
    ensures ActiveTarget(players, n) < n - 1 ==>
      forall j :: ActiveTarget(players, n) <= j < n ==> !HasScoresIn(players, j)
    ensures 0 < ActiveTarget(players, n) ==>
      HasScoresIn(players, ActiveTarget(players, n) - 1) || HasScoresIn(players, n - 1)
  {
    var t := ActiveTarget(players, n);
    match LastScored(players, n)
    case None =>
    case Some(i) =>
      if HasScoresIn(players, n - 1) {
        assert i == n - 1;
      }
  }

  /** `players.some((p) => typeof p.scores?.[i] === "number" && p.scores[i] > 0)`. */
  method SomeScored(players: seq<PlayerData>, i: nat) returns (found: bool)
    ensures found == HasScoresIn(players, i)
  {
    found := false;
    for k := 0 to |players|
      invariant found <==> exists p :: p in players[..k] && i < |p.scores| && p.scores[i] > 0
    {
      assert players[..k + 1] == players[..k] + [players[k]];
      if i < |players[k].scores| && players[k].scores[i] > 0 {
        found := true;
      }
    }
    assert players[..|players|] == players;
  }

  /** The active-round effect: None when it returns early (no players or no
      rounds), otherwise the index it selects. */
  method ChooseActiveRound(players: seq<PlayerData>, rounds: seq<Round>) returns (target: Option<nat>)
    ensures target.None? <==> |players| == 0 || |rounds| == 0
    ensures target.Some? ==> target.value == ActiveTarget(players, |rounds|)
  {
    if |players| == 0 || |rounds| == 0 {
      return None;
    }
    var targetIndex := 0;
    for i := 0 to |rounds|
      invariant targetIndex == match LastScored(players, i) case None => 0 case Some(j) => j + 1
    {
      var hasScores := SomeScored(players, i);
      if hasScores {
        targetIndex := i + 1;
      }
    }
    if targetIndex >= |rounds| {
      targetIndex := |rounds| - 1;
    }
    target := Some(targetIndex);
  }

  /** `activeRound.scrambleOptions?.pairing === "position"`. */
  predicate PairingIsPosition(round: Round) {
    round.scrambleOptions.Some? && round.scrambleOptions.value.pairing == Some(Position)
  }

  /** The `generatedTeams` memo for the active round. */
  function GeneratedTeams(round: Round, activeIdx: nat, players: seq<PlayerData>,
                          assignments: Option<map<PlayerId, TeamChoice>>): seq<seq<PlayerId>>
  {
    if PairingIsPosition(round) && (!IsScramble(round) || activeIdx == 0) then round.teams
    else if HasScoresIn(players, activeIdx) && |round.teams| > 0 then round.teams
    else Pairing.GenerateTeams(round, activeIdx, players, assignments)
  }

  /** Stored pairs are shown as they are for a "position" round that is not
      scramble or is the first round, and frozen once the round has a positive
      score; otherwise the pairs are generated afresh, every player placed once
      (without team assignments) or each team paired apart (with them). */
  lemma GeneratedTeamsRules(round: Round, activeIdx: nat, players: seq<PlayerData>,
                            assignments: Option<map<PlayerId, TeamChoice>>)
    ensures PairingIsPosition(round) && (!IsScramble(round) || activeIdx == 0) ==>
      GeneratedTeams(round, activeIdx, players, assignments) == round.teams
    ensures HasScoresIn(players, activeIdx) && |round.teams| > 0 ==>
      GeneratedTeams(round, activeIdx, players, assignments) == round.teams
    ensures !HasAssignments(assignments) && !(PairingIsPosition(round) && (!IsScramble(round) || activeIdx == 0))
            && !(HasScoresIn(players, activeIdx) && |round.teams| > 0) ==>
      && |GeneratedTeams(round, activeIdx, players, assignments)| == Pairing.GroupCount(|players|)
      && multiset(Flatten(GeneratedTeams(round, activeIdx, players, assignments))) == multiset(PlayerIds(players))
  {
    if !HasAssignments(assignments) {
      Pairing.NoTeamModeCoversAll(round, activeIdx, players, assignments);
    }
  }

  predicate HasAssignments(assignments: Option<map<PlayerId, TeamChoice>>) {
    Pairing.HasAssignments(assignments)
  }

  /** The write-back condition: a scramble round whose shown pairs differ from
      the stored ones and that has no positive score yet. */
  predicate ShouldWriteBack(round: Round, activeIdx: nat, players: seq<PlayerData>,
                            assignments: Option<map<PlayerId, TeamChoice>>)
  {
    IsScramble(round) && round.teams != GeneratedTeams(round, activeIdx, players, assignments)
    && !HasScoresIn(players, activeIdx)
  }

  /** Writing back settles: once the generated pairs are stored, the memo
      yields the stored pairs and no further write-back is due. */
  lemma WriteBackSettles(round: Round, activeIdx: nat, players: seq<PlayerData>,
                         assignments: Option<map<PlayerId, TeamChoice>>)
    requires ShouldWriteBack(round, activeIdx, players, assignments)
    ensures var stored := round.(teams := GeneratedTeams(round, activeIdx, players, assignments));
            && GeneratedTeams(stored, activeIdx, players, assignments) == stored.teams
            && !ShouldWriteBack(stored, activeIdx, players, assignments)
  {
    var generated := GeneratedTeams(round, activeIdx, players, assignments);
    var stored := round.(teams := generated);
    assert generated == Pairing.GenerateTeams(round, activeIdx, players, assignments);
    assert Pairing.GenerateTeams(stored, activeIdx, players, assignments) == generated;
  }

  /** A pair with the score of its first member in the active round. */
  datatype TeamScore = TeamScore(team: seq<PlayerId>, score: int)

  function TeamScoreKey(t: TeamScore): int {
    t.score
  }

  /** `player?.scores?.[activeRoundIndex] || 0` for the team's first member. */
  function LeaderScore(team: seq<PlayerId>, players: seq<PlayerData>, activeIdx: nat): int {
    if team == [] then 0
    else
      match FindPlayer(players, team[0])
      case None => 0
      case Some(p) => if activeIdx < |p.scores| then p.scores[activeIdx] else 0
  }

  function TeamScores(teams: seq<seq<PlayerId>>, players: seq<PlayerData>, activeIdx: nat): (r: seq<TeamScore>)
    ensures |r| == |teams|
    ensures forall i :: 0 <= i < |teams| ==> r[i] == TeamScore(teams[i], LeaderScore(teams[i], players, activeIdx))
  {
    if teams == [] then []
    else [TeamScore(teams[0], LeaderScore(teams[0], players, activeIdx))] + TeamScores(teams[1..], players, activeIdx)
  }

  function TeamsOf(scores: seq<TeamScore>): (r: seq<seq<PlayerId>>)
    ensures |r| == |scores| && forall i :: 0 <= i < |scores| ==> r[i] == scores[i].team
  {
    seq(|scores|, i requires 0 <= i < |scores| => scores[i].team)
  }

  /** In a scramble round whose pairs are generated afresh (no team
      assignments, not frozen, not the position short-cut), the team-score
      effect does not return early once there are players: it scores one
      entry per pair, and the entries' teams hold every player exactly once. */
  lemma FreshTeamScoresCoverPlayers(round: Round, activeIdx: nat, players: seq<PlayerData>,
                                    assignments: Option<map<PlayerId, TeamChoice>>)
    requires IsScramble(round) && !HasAssignments(assignments) && |players| > 0
    requires !(PairingIsPosition(round) && activeIdx == 0)
    requires !(HasScoresIn(players, activeIdx) && |round.teams| > 0)
    ensures var generated := GeneratedTeams(round, activeIdx, players, assignments);
            var scores := TeamScores(generated, players, activeIdx);
            && generated != []
            && |scores| == Pairing.GroupCount(|players|)
            && multiset(Flatten(TeamsOf(scores))) == multiset(PlayerIds(players))
  {
    var generated := GeneratedTeams(round, activeIdx, players, assignments);
    GeneratedTeamsRules(round, activeIdx, players, assignments);
    assert TeamsOf(TeamScores(generated, players, activeIdx)) == generated;
  }

  /** The team table: the team scores in ascending order of score, ties in
      pair order. */
  function TeamTable(scores: seq<TeamScore>): (r: seq<TeamScore>)
    ensures multiset(r) == multiset(scores)
    ensures forall i, j :: 0 <= i < j < |r| ==> r[i].score <= r[j].score
    ensures forall k :: WithKey(r, TeamScoreKey, k) == WithKey(scores, TeamScoreKey, k)
  {
    var r := SortBy(scores, TeamScoreKey);
    forall k ensures WithKey(r, TeamScoreKey, k) == WithKey(scores, TeamScoreKey, k) {
      SortByStable(scores, TeamScoreKey, k);
    }
    r
  }

  /** After saving a scramble round with disjoint pairs, a pair's score in the
      table is the value entered under its first member's field. */
  lemma TeamScoreIsEnteredValue(original: seq<PlayerData>, rounds: seq<Round>, games: seq<MiniGame>,
                                form: ScoreEntry.FormData, activeIdx: nat, k: nat)
    requires activeIdx < |rounds| && IsScramble(rounds[activeIdx]) && ScoreEntry.Disjoint(rounds[activeIdx].teams)
    requires k < |rounds[activeIdx].teams| && |rounds[activeIdx].teams[k]| > 0
    requires exists p :: p in original && p.id == rounds[activeIdx].teams[k][0]
    ensures var saved := ScoreEntry.SavedPlayers(original, rounds, games, form);
            var team := rounds[activeIdx].teams[k];
            TeamScores(rounds[activeIdx].teams, saved, activeIdx)[k].score
              == ScoreEntry.Field(form, ScoreEntry.ScoreKey(team[0], activeIdx))
  {
    var team := rounds[activeIdx].teams[k];
    SavedScoresOf(original, rounds, games, form, team[0]);
    ScoreEntry.ScrambleTeamShares(rounds[activeIdx], activeIdx, form, k, team[0]);
  }

  /** A player of the saved list is found by id and holds the entered score
      of every round. */
  lemma SavedScoresOf(original: seq<PlayerData>, rounds: seq<Round>, games: seq<MiniGame>,
                      form: ScoreEntry.FormData, id: PlayerId)
    requires exists p :: p in original && p.id == id
    ensures var found := FindPlayer(ScoreEntry.SavedPlayers(original, rounds, games, form), id);
            found.Some? && found.value.scores == ScoreEntry.RoundScores(rounds, id, form)
  {
    var saved := ScoreEntry.SavedPlayers(original, rounds, games, form);
    var q :| q in original && q.id == id;
    var m :| 0 <= m < |original| && original[m] == q;
    assert saved[m].id == id;
    var p := FindPlayer(saved, id).value;
    var m' :| 0 <= m' < |saved| && saved[m'] == p;
    assert p.scores == ScoreEntry.RoundScores(rounds, original[m'].id, form);
  }

  /** The carousel's state: the tournament's rounds, the shown round and the
      team-score table. */
  class Carousel {
    var rounds: seq<Round>
    var activeRoundIndex: nat
    var teamScores: seq<TeamScore>

    ghost predicate Valid()
      reads this
    {
      activeRoundIndex < |rounds|
    }

    constructor(rounds: seq<Round>)
      requires |rounds| > 0
      ensures Valid() && this.rounds == rounds && activeRoundIndex == 0 && teamScores == []
    {
      this.rounds := rounds;
      activeRoundIndex := 0;
      teamScores := [];
    }

    /** `handlePrev`: one round back unless at the first. */
    method HandlePrev()
      requires Valid()
      modifies this
      ensures Valid() && rounds == old(rounds) && teamScores == old(teamScores)
      ensures activeRoundIndex == if old(activeRoundIndex) > 0 then old(activeRoundIndex) - 1 else old(activeRoundIndex)
    {
      if activeRoundIndex > 0 {
        activeRoundIndex := activeRoundIndex - 1;
      }
    }

    /** `handleNext`: one round on unless at the last. */
    method HandleNext()
      requires Valid()
      modifies this
      ensures Valid() && rounds == old(rounds) && teamScores == old(teamScores)
      ensures activeRoundIndex == if old(activeRoundIndex) < |rounds| - 1 then old(activeRoundIndex) + 1 else old(activeRoundIndex)
    {
      if activeRoundIndex < |rounds| - 1 {
        activeRoundIndex := activeRoundIndex + 1;
      }
    }

    /** The active-round effect applied to the state. */
    method SyncActiveRound(players: seq<PlayerData>)
      requires Valid()
      modifies this
      ensures Valid() && rounds == old(rounds) && teamScores == old(teamScores)
      ensures |players| == 0 ==> activeRoundIndex == old(activeRoundIndex)
      ensures |players| > 0 ==> activeRoundIndex == ActiveTarget(players, |rounds|)
    {
      var target := ChooseActiveRound(players, rounds);
      if target.Some? {
        ActiveTargetProperties(players, |rounds|);
        activeRoundIndex := target.value;
      }
    }

    /** The write-back effect: store the shown pairs in the active round when
      the condition holds; nothing else changes. */
    method WriteBack(players: seq<PlayerData>, assignments: Option<map<PlayerId, TeamChoice>>)
      requires Valid()
      modifies this
      ensures Valid() && activeRoundIndex == old(activeRoundIndex) && teamScores == old(teamScores)
      ensures var round := old(rounds)[activeRoundIndex];
              rounds == if ShouldWriteBack(round, activeRoundIndex, players, assignments)
                        then old(rounds)[activeRoundIndex := round.(teams := GeneratedTeams(round, activeRoundIndex, players, assignments))]
                        else old(rounds)
    {
      var round := rounds[activeRoundIndex];
      if !IsScramble(round) {
        return;
      }
      var generated := GeneratedTeams(round, activeRoundIndex, players, assignments);
      var hasScores := SomeScored(players, activeRoundIndex);
      if round.teams != generated && !hasScores {
        rounds := rounds[activeRoundIndex := round.(teams := generated)];
      }
    }

    /** The team-score effect: for a scramble round with pairs, each pair is
      scored by its first member; otherwise it returns early and the previous
      table stays. */
    method UpdateTeamScores(players: seq<PlayerData>, assignments: Option<map<PlayerId, TeamChoice>>)
      requires Valid()
      modifies this
      ensures Valid() && rounds == old(rounds) && activeRoundIndex == old(activeRoundIndex)
      ensures var round := rounds[activeRoundIndex];
              var generated := GeneratedTeams(round, activeRoundIndex, players, assignments);
              teamScores == if IsScramble(round) && generated != [] then TeamScores(generated, players, activeRoundIndex)
                            else old(teamScores)
    {
      var round := rounds[activeRoundIndex];
      var generated := GeneratedTeams(round, activeRoundIndex, players, assignments);
      if !IsScramble(round) || generated == [] {
        return;
      }
      teamScores := TeamScores(generated, players, activeRoundIndex);
    }
  }
}
