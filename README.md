# Golf tournament scoring and pairing — a Dafny model

This project models the scoring and pairing logic of a golf tournament web
app. The app is written in JavaScript/React on top of a Supabase database.
It covers:

- **Scramble pairing.** Players are stable-sorted by a key (the handicap, or
  the sum of the earlier rounds' scores) and a two-pointer walk pairs the
  lowest with the highest. In team mode this runs for red and for green
  separately. The score editor fills missing scramble pairs when it opens.
  The round carousel reuses stored pairs once scores exist and writes new
  pairs back under a guard.
- **Saving scores.** The score editor reads each player's score per round
  from the submitted form. In a scramble round every member gets the team
  leader's value. Mini-game stars are collected per round and game. Flat
  records are built for storage, and the standings order is captured before
  saving. The derived net field of handicap rounds is `max(0, gross − hcp)`.
- **Standings.** The total is the sum of round scores minus the stars of
  subtracting mini-games times their deduction value. Players are sorted
  ascending, the podium is the first three, and red and green get team
  totals. A position badge compares against the previous standings.
- **Mini-game leaderboard.** Per-game star breakdowns and totals, sorted
  descending. A loop assigns competition ranks (7, 7, 5 → 1, 1, 3), and the
  ranks split the board into a podium and the rest.
- **Tournament setup.** Player toggle, team assignment, resizing the round
  list, the mode-change and scramble-option rules (round 0 never pairs by
  position), the column-major player grid, and the round, mode and
  scramble-settings rows written on save.
- **Loading a tournament.** Rounds are rebuilt from mode, settings and
  custom-pair rows, with a symmetric custom-pair map. Per-player score and
  mini-game vectors are filled from flat records. Also: the standings
  snapshot order, the tab bar, and the player objects handed to the
  standings page.
- **Tournament list.** Scores are grouped per tournament through the round
  table, summed per player, sorted ascending, and the top three shown.

**Modules.** There is one module per source file:

| module | source file |
|---|---|
| `Pairing`, `ScoreEntry` | `EditScores.jsx` |
| `RoundInfo` | `RoundInfo.jsx` |
| `Standings` | `TournamentStandings.jsx` |
| `MiniGameBoard` | `MinigamesStandings.jsx` |
| `TournamentSetup` | `NewTournament.jsx` |
| `Snapshot` | `Tournament.jsx` |
| `TournamentList` | `MyTournaments.jsx` |

Two further modules are shared. `Common` holds the records (rounds, players,
mini-games) and small sequence functions. `Sorting` is a stable insertion
sort standing for `Array.prototype.sort` with a numeric comparator.

**How it is modelled.**

- Loops of the source become methods with loops, each proved equal to a
  specification function. The properties are stated as lemmas about those
  functions.
- State that the source updates in place is a class:
  - the round carousel (`RoundInfo.Carousel`);
  - the round form of the new-tournament page (`TournamentSetup.RoundForm`).
- Database query results are input sequences. Database writes are returned
  values.
- The submitted form is a map from input name to integer. An absent key
  stands for a blank input.
- Scores, handicaps and star values are integers.

## Model

| member | source | states |
|---|---|---|
| Sorting.SortBy | src/pages/TournamentOverview/Content/tournamentMainPage/components/TournamentStandings.jsx:28-30 | a JS numeric-comparator sort: a permutation of the input, same length, ascending by the key |
| Sorting.SortByStable | src/pages/TournamentOverview/Content/tournamentMainPage/components/TournamentStandings.jsx:28-30 | the sort is stable: the elements with any one key keep their input order |
| Common.FindPlayer | src/pages/TournamentOverview/Content/tournamentMainPage/components/RoundInfo.jsx:162 | `players.find` by id: None exactly when no player has the id, otherwise the first player in the list with that id |
| Common.IndexOf | src/pages/TournamentOverview/Content/tournamentMainPage/components/TournamentStandings.jsx:192 | `indexOf`: -1 exactly when absent, otherwise the first position holding the value |
| Pairing.PairBy | src/pages/TournamentOverview/Content/editScores/EditScores.jsx:52-67 | `pairBy` sorts the group by key and runs the two-pointer walk; equal to `Paired` of the group |
| Pairing.PairOffWalk | src/pages/TournamentOverview/Content/editScores/EditScores.jsx:54-66 | the `left`/`right` loop over a sorted list produces first-with-last, then inwards, a lone middle player last |
| Pairing.PairOffShape | src/pages/TournamentOverview/Content/editScores/EditScores.jsx:58-64 | n/2 + n%2 groups; group i is [i-th, (n-1-i)-th]; for odd n the last group is the middle player alone |
| Pairing.PairOffCovers | src/pages/TournamentOverview/Content/editScores/EditScores.jsx:58-64 | the ids in the groups are exactly the ids of the list, each as often as in the list |
| Pairing.PairedProperties | src/pages/TournamentOverview/Content/editScores/EditScores.jsx:52-67 | floor(n/2) pairs plus a singleton exactly when n is odd, nothing for no players, every id placed exactly once, and pair i joins the i-th smallest key with the i-th largest, so key(first) ≤ key(second) |
| Pairing.PairedCount | src/pages/TournamentOverview/Content/editScores/EditScores.jsx:58-64 | the number of groups is `GroupCount(n)` = n/2 + n%2 |
| Pairing.PairedCovers | src/pages/TournamentOverview/Content/editScores/EditScores.jsx:52-67 | pairing a group neither drops nor duplicates an id |
| Pairing.IdsMultiset | src/pages/TournamentOverview/Content/editScores/EditScores.jsx:53 | permuting entries permutes their ids |
| Pairing.PriorTotalSteps | src/pages/TournamentOverview/Content/editScores/EditScores.jsx:82 | the `total` key: 0 before round 0, one round's score more per round, the sum of all scores past the last round |
| Pairing.AllEntriesIds | src/pages/TournamentOverview/Content/editScores/EditScores.jsx:95-98 | without teams, one entry per player in player order |
| Pairing.TeamEntriesAssigned | src/pages/TournamentOverview/Content/editScores/EditScores.jsx:79-88 | the red (green) list holds exactly the players assigned to red (green), each once |
| Pairing.GenerateTeamsForRound | src/pages/TournamentOverview/Content/editScores/EditScores.jsx:49-104 | the method (team split with pushes, then `pairBy`) equals `GenerateTeams` |
| Pairing.TeamModeSeparatesTeams | src/pages/TournamentOverview/Content/editScores/EditScores.jsx:74-93 | with assignments: the red groups come first and hold only red players, the rest hold only green players, together exactly the red and green players, and no unassigned player is in any group |
| Pairing.PairedOnTeam | src/pages/TournamentOverview/Content/editScores/EditScores.jsx:90-92 | pairing a one-team list keeps every group on that team |
| Pairing.NoTeamModeCoversAll | src/pages/TournamentOverview/Content/editScores/EditScores.jsx:94-101 | without assignments: GroupCount(n) groups holding every player id exactly once |
| Pairing.FillMissingTeams | src/pages/TournamentOverview/Content/editScores/EditScores.jsx:29-47 | the mount effect: a round is filled exactly when it is scramble with no teams, every other round is unchanged, and the tournament is replaced exactly when some round needed filling |
| Pairing.FilledIsStable | src/pages/TournamentOverview/Content/editScores/EditScores.jsx:33-41 | once filled (players present, no team mode) a round no longer needs generation, so filling again changes nothing |
| ScoreEntry.FindTeam | src/pages/TournamentOverview/Content/editScores/EditScores.jsx:129 | `teams.find(includes)`: None exactly when no team contains the id, otherwise the first team in the list containing it |
| ScoreEntry.ScrambleTeamShares | src/pages/TournamentOverview/Content/editScores/EditScores.jsx:128-131 | in a scramble round with disjoint teams every member of team k receives the value entered under the leader's field |
| ScoreEntry.ScrambleWithoutTeamIsZero | src/pages/TournamentOverview/Content/editScores/EditScores.jsx:128-138 | in a scramble round a player in no team gets 0 |
| ScoreEntry.RoundScores | src/pages/TournamentOverview/Content/editScores/EditScores.jsx:123-147 | one score per round; round i's score is the value read for that round's mode, a blank as 0 |
| ScoreEntry.ScoreRecordsFor | src/pages/TournamentOverview/Content/editScores/EditScores.jsx:140-144 | one record per round carrying the round id, the player id and that round's score |
| ScoreEntry.MiniRowSpec | src/pages/TournamentOverview/Content/editScores/EditScores.jsx:151-161 | a game name is in a round's star map exactly when a mini-game has that name and its field is not blank, and then it holds the entered value |
| ScoreEntry.MiniScoresFor | src/pages/TournamentOverview/Content/editScores/EditScores.jsx:149-157 | one slot per round, present exactly when the tournament has mini-games, holding that round's star map |
| ScoreEntry.GameRecordsMatchRows | src/pages/TournamentOverview/Content/editScores/EditScores.jsx:158-167 | every pushed mini-game record carries its game's id and the player, and its value is the one stored in the star map of a round with the record's round id |
| ScoreEntry.SavedPlayers | src/pages/TournamentOverview/Content/editScores/EditScores.jsx:122-173 | one updated player per player, each with the new scores and star maps |
| ScoreEntry.AllScoreRecordsCount | src/pages/TournamentOverview/Content/editScores/EditScores.jsx:119-147 | the save produces players × rounds score records |
| ScoreEntry.ScoresOfPlayer | src/pages/TournamentOverview/Content/editScores/EditScores.jsx:123-147 | the per-round loop returns `RoundScores` and pushes `ScoreRecordsFor` |
| ScoreEntry.MiniScoresOfPlayer | src/pages/TournamentOverview/Content/editScores/EditScores.jsx:149-170 | the nested game/round loops return `MiniScoresFor` and push `MiniRecordsFor` |
| ScoreEntry.HandleSave | src/pages/TournamentOverview/Content/editScores/EditScores.jsx:106-173 | the save: the standings snapshot, the updated players and both record lists, each equal to its specification |
| ScoreEntry.StandingsOrderProperties | src/pages/TournamentOverview/Content/editScores/EditScores.jsx:110-115 | with distinct ids the snapshot is a permutation of the player ids, ascending by raw total |
| ScoreEntry.IdsPermuted | src/pages/TournamentOverview/Content/editScores/EditScores.jsx:110-115 | sorting the players permutes their ids |
| ScoreEntry.Net | src/pages/TournamentOverview/Content/editScores/EditScores.jsx:309-317 | the derived net field is present exactly when gross and handicap are, is never negative, and is gross − handicap when that is not negative (0 otherwise) |
| ScoreEntry.NetAntitone | src/pages/TournamentOverview/Content/editScores/EditScores.jsx:314 | a larger handicap never gives a larger net |
| ScoreEntry.NetOfInitialGross | src/pages/TournamentOverview/Content/editScores/EditScores.jsx:18-21 | the gross prefilled from a stored score gives back that score as net, a round trip |
| RoundInfo.LastScored | src/pages/TournamentOverview/Content/tournamentMainPage/components/RoundInfo.jsx:26-34 | the last round below n in which some player has a positive score, None when there is none |
| RoundInfo.ActiveTargetProperties | src/pages/TournamentOverview/Content/tournamentMainPage/components/RoundInfo.jsx:24-38 | the chosen round is below n; the last round if it has scores; 0 if no round has scores; below the cap no later round has scores; a positive choice follows a scored round |
| RoundInfo.SomeScored | src/pages/TournamentOverview/Content/tournamentMainPage/components/RoundInfo.jsx:27-29 | the `players.some` test is `HasScoresIn` |
| RoundInfo.ChooseActiveRound | src/pages/TournamentOverview/Content/tournamentMainPage/components/RoundInfo.jsx:21-41 | the effect returns early exactly when there are no players or no rounds; otherwise it picks `ActiveTarget` |
| RoundInfo.GeneratedTeamsRules | src/pages/TournamentOverview/Content/tournamentMainPage/components/RoundInfo.jsx:44-113 | position pairing outside scramble or in round 0 returns the stored teams; a scored round with stored teams returns them (freeze); otherwise without team mode the pairs cover every player once in GroupCount(n) groups |
| RoundInfo.WriteBackSettles | src/pages/TournamentOverview/Content/tournamentMainPage/components/RoundInfo.jsx:117-131 | after a write-back the memo returns the stored teams and no further write-back happens |
| RoundInfo.TeamScores | src/pages/TournamentOverview/Content/tournamentMainPage/components/RoundInfo.jsx:160-166 | one entry per team, scored with its first member's score for the round, 0 when missing |
| RoundInfo.FreshTeamScoresCoverPlayers | src/pages/TournamentOverview/Content/tournamentMainPage/components/RoundInfo.jsx:157-169 | in a scramble round with freshly generated pairs and at least one player, the team-score effect runs, scores one entry per pair (n/2 + n%2 entries) and its teams hold every player exactly once |
| RoundInfo.Carousel.UpdateTeamScores | src/pages/TournamentOverview/Content/tournamentMainPage/components/RoundInfo.jsx:157-169 | for a scramble round with pairs, the table becomes each pair with its first member's score; otherwise the effect returns early and the table is unchanged; rounds and index are unchanged |
| RoundInfo.TeamTable | src/pages/TournamentOverview/Content/tournamentMainPage/components/RoundInfo.jsx:243-244 | the team table is a permutation of the team scores, ascending, stable on ties |
| RoundInfo.TeamScoreIsEnteredValue | src/pages/TournamentOverview/Content/tournamentMainPage/components/RoundInfo.jsx:160-166 | after a save, a scramble team's score is the value entered under its leader's field |
| RoundInfo.Carousel.HandlePrev | src/pages/TournamentOverview/Content/tournamentMainPage/components/RoundInfo.jsx:171-173 | one round back unless at the first; the index stays in range |
| RoundInfo.Carousel.HandleNext | src/pages/TournamentOverview/Content/tournamentMainPage/components/RoundInfo.jsx:175-177 | one round on unless at the last; the index stays in range |
| RoundInfo.Carousel.SyncActiveRound | src/pages/TournamentOverview/Content/tournamentMainPage/components/RoundInfo.jsx:21-41 | the active index becomes `ActiveTarget` when there are players; otherwise it is unchanged |
| RoundInfo.Carousel.WriteBack | src/pages/TournamentOverview/Content/tournamentMainPage/components/RoundInfo.jsx:117-131 | the active round's teams are replaced by the generated ones exactly when the round is scramble, they differ, and no score exists; nothing else changes |
| Standings.DeductionAppend | src/pages/TournamentOverview/Content/tournamentMainPage/components/TournamentStandings.jsx:12-21 | the deduction over two lists of games is the sum of their deductions |
| Standings.Subtracting | src/pages/TournamentOverview/Content/tournamentMainPage/components/TournamentStandings.jsx:13 | keeps exactly the games with `subtract_from_score` |
| Standings.OnlySubtractingGamesCount | src/pages/TournamentOverview/Content/tournamentMainPage/components/TournamentStandings.jsx:12-21 | the deduction equals the deduction over the subtracting games alone |
| Standings.NoSubtractingGamesNoDeduction | src/pages/TournamentOverview/Content/tournamentMainPage/components/TournamentStandings.jsx:7-25 | without a subtracting game the total is the raw score sum |
| Standings.OneMoreStar | src/pages/TournamentOverview/Content/tournamentMainPage/components/TournamentStandings.jsx:14-18 | one more star in a counted round raises the deduction by the game's deduction value (missing as 0) |
| Standings.UnchangedBefore | src/pages/TournamentOverview/Content/tournamentMainPage/components/TournamentStandings.jsx:14-19 | the deduction depends only on the stars of the counted rounds |
| Standings.DeductionOf | src/pages/TournamentOverview/Content/tournamentMainPage/components/TournamentStandings.jsx:9-22 | the nested `forEach` accumulation equals `Deduction` |
| Standings.TotalWithDeduction | src/pages/TournamentOverview/Content/tournamentMainPage/components/TournamentStandings.jsx:7-25 | `getTotalWithDeduction` equals raw total minus deduction |
| Standings.SortedPlayers | src/pages/TournamentOverview/Content/tournamentMainPage/components/TournamentStandings.jsx:28-30 | a permutation of the players, ascending by total, stable on ties |
| Standings.Podium | src/pages/TournamentOverview/Content/tournamentMainPage/components/TournamentStandings.jsx:37 | the first min(3, n) sorted players |
| Standings.PodiumIsBest | src/pages/TournamentOverview/Content/tournamentMainPage/components/TournamentStandings.jsx:37 | no podium player has a larger total than a player off the podium |
| Standings.PodiumShownMeansFinalRoundActive | src/pages/TournamentOverview/Content/tournamentMainPage/components/TournamentStandings.jsx:32-35 | when the podium shows (final round scored), the carousel's chosen round is the last one |
| Standings.TeamSumsPartition | src/pages/TournamentOverview/Content/tournamentMainPage/components/TournamentStandings.jsx:40-49 | red total + green total + unassigned players' totals = sum of all totals |
| Standings.TeamStandingsAsWrittenFailsWithoutTeams | src/pages/TournamentOverview/Content/tournamentMainPage/components/TournamentStandings.jsx:42-44 | as written, a tournament without team data and with a player fails |
| Standings.TeamStandingsProperties | src/pages/TournamentOverview/Content/tournamentMainPage/components/TournamentStandings.jsx:40-62 | the corrected team standings are red and green with their sums, ascending, red first on a tie, and agree with the original wherever it does not fail |
| Standings.TeamStandingsWithoutTeams | src/pages/TournamentOverview/Content/tournamentMainPage/components/TournamentStandings.jsx:40-62 | without team data the corrected standings list red and green with total 0 |
| Standings.DeltaBadgeRule | src/pages/TournamentOverview/Content/tournamentMainPage/components/TournamentStandings.jsx:192-226 | a badge shows exactly when the second score is not 0, the player is in the previous standings and moved; the improvement/drop count is `indexOf` (the first previous position) − current index, with the right sign |
| Standings.SingleRoundStillShowsBadge | src/pages/TournamentOverview/Content/tournamentMainPage/components/TournamentStandings.jsx:218 | a missing second round does not hide the badge (as written) |
| Standings.StandingRows | src/pages/TournamentOverview/Content/tournamentMainPage/components/TournamentStandings.jsx:173-202 | one row per sorted player, position index + 1, the recomputed deduction, the total equal to `getTotalWithDeduction`, and the badge |
| MiniGameBoard.BreakdownSpec | src/pages/TournamentOverview/Content/miniGames/MinigamesStandings.jsx:13-18 | the breakdown has one key per mini-game name, holding that game's stars summed over the recorded rounds |
| MiniGameBoard.TotalIsSumOfBreakdown | src/pages/TournamentOverview/Content/miniGames/MinigamesStandings.jsx:13-20 | the total is the sum of the breakdown over the games |
| MiniGameBoard.PlayerScoreOf | src/pages/TournamentOverview/Content/miniGames/MinigamesStandings.jsx:9-28 | the per-player loops compute `ScoreOf` |
| MiniGameBoard.PlayerScores | src/pages/TournamentOverview/Content/miniGames/MinigamesStandings.jsx:9-28 | one entry per player, in player order |
| MiniGameBoard.SortedDescending | src/pages/TournamentOverview/Content/miniGames/MinigamesStandings.jsx:30 | a permutation, descending by total, stable on ties |
| MiniGameBoard.AssignRanks | src/pages/TournamentOverview/Content/miniGames/MinigamesStandings.jsx:31-45 | the rank loop writes `Rank(sorted, i)` on entry i |
| MiniGameBoard.RanksOfSevenSevenFive | src/pages/TournamentOverview/Content/miniGames/MinigamesStandings.jsx:35-45 | totals 7, 7, 5 get ranks 1, 1, 3 |
| MiniGameBoard.RankCountsGreater | src/pages/TournamentOverview/Content/miniGames/MinigamesStandings.jsx:35-45 | on a descending list, rank = 1 + the number of entries with a strictly greater total |
| MiniGameBoard.RankBounds | src/pages/TournamentOverview/Content/miniGames/MinigamesStandings.jsx:35-45 | 1 ≤ rank ≤ index + 1 |
| MiniGameBoard.RanksNonDecreasing | src/pages/TournamentOverview/Content/miniGames/MinigamesStandings.jsx:35-45 | ranks never decrease along the list |
| MiniGameBoard.SplitMembers | src/pages/TournamentOverview/Content/miniGames/MinigamesStandings.jsx:47-48 | an entry is on the podium exactly when its rank is ≤ 3, and in the rest exactly when its rank is > 3 |
| MiniGameBoard.PodiumThenRest | src/pages/TournamentOverview/Content/miniGames/MinigamesStandings.jsx:47-48 | with ascending ranks, podium followed by rest is the whole list in order |
| MiniGameBoard.TiesLengthenThePodium | src/pages/TournamentOverview/Content/miniGames/MinigamesStandings.jsx:47 | four players tied for first all get rank 1, so the podium has four entries |
| MiniGameBoard.Leaderboard | src/pages/TournamentOverview/Content/miniGames/MinigamesStandings.jsx:30-48 | podium + rest is the ranked board, split at rank 3, and every rank is 1 + the number of strictly better totals |
| TournamentSetup.Toggle | src/pages/NewTournament.jsx:47-51 | a selected id is removed and nothing else; an unselected id is appended |
| TournamentSetup.Without | src/pages/NewTournament.jsx:49 | the filter keeps exactly the other ids and is the identity when the id is absent |
| TournamentSetup.ToggleTwice | src/pages/NewTournament.jsx:47-51 | toggling an absent id twice restores the list; a present id (once) ends up moved to the end |
| TournamentSetup.AssignTeam | src/pages/NewTournament.jsx:53-55 | sets the player's team, keeps every other assignment |
| TournamentSetup.ResizeRounds | src/pages/NewTournament.jsx:57-69 | a positive count gives exactly that many rounds; anything else leaves the rounds unchanged |
| TournamentSetup.ResizeKeepsRounds | src/pages/NewTournament.jsx:60-66 | kept rounds keep modes, options and info, with an empty name replaced by "Runda i+1"; new rounds get the defaults |
| TournamentSetup.SetMode | src/pages/NewTournament.jsx:90 | `modes[which] = value`: sets that position (appending at the end) and keeps the others |
| TournamentSetup.WithInfo | src/pages/NewTournament.jsx:97-101 | the preset info replaces the info only for the first mode and a preset mode; nothing else changes |
| TournamentSetup.LeavingScrambleKeepsOptions | src/pages/NewTournament.jsx:89-94 | as written, switching a scramble round to stroke play keeps its scramble options |
| TournamentSetup.ModeChanged | src/pages/NewTournament.jsx:77-104 | corrected: choosing scramble sets [scramble] with fresh options (handicap pairing in round 0, position otherwise); leaving scramble sets [value] and clears the options; otherwise only that mode changes |
| TournamentSetup.ModeChangedKeepsOptionsWithScramble | src/pages/NewTournament.jsx:81-94 | with the corrected rule a round has scramble options exactly when it has the scramble mode, before and after |
| TournamentSetup.RoundForm.ChangeRoundCount | src/pages/NewTournament.jsx:57-69 | the rounds become `ResizeRounds` of the old ones, keeping the form's invariant |
| TournamentSetup.AsWrittenDiffersOnlyLeavingScramble | src/pages/NewTournament.jsx:77-104 | the handler as written equals the corrected rule except when it leaves scramble by overwriting the only scramble mode, so it sets [scramble] with fresh options on choosing scramble and otherwise changes one mode |
| TournamentSetup.RoundForm.RoundModeChange | src/pages/NewTournament.jsx:77-104 | the handler as written: only round `index` changes, to `ModeChangedAsWritten`, and round 0 still never pairs by position |
| TournamentSetup.RoundForm.AddSecondMode | src/pages/NewTournament.jsx:106-110 | appends an empty second mode unless one is set; other rounds are unchanged |
| TournamentSetup.RoundForm.RemoveSecondMode | src/pages/NewTournament.jsx:112-116 | the round keeps only its first mode |
| TournamentSetup.RoundForm.ScrambleOptionChange | src/pages/NewTournament.jsx:118-127 | refused exactly for position pairing in round 0 (nothing changes); otherwise only that option of that round changes |
| TournamentSetup.GridOrderMembers | src/pages/NewTournament.jsx:300-307 | an index is visited exactly when it is below n and in one of the rows walked so far |
| TournamentSetup.GridOrderNoDuplicates | src/pages/NewTournament.jsx:300-307 | no index is visited twice |
| TournamentSetup.GridVisitsEachOnce | src/pages/NewTournament.jsx:296-307 | the column-major walk visits every index below n exactly once |
| TournamentSetup.GridOf | src/pages/NewTournament.jsx:298-307 | the nested loops push the players at the grid order |
| TournamentSetup.TransposedGrid | src/pages/NewTournament.jsx:294-307 | the grid is the handicap-sorted players taken in grid order |
| TournamentSetup.GridPicksEachOnce | src/pages/NewTournament.jsx:294-307 | the grid has one entry per sorted player, entry k being the player at grid index k |
| TournamentSetup.RoundRows | src/pages/NewTournament.jsx:202-207 | one row per round with its name (or "Runda i+1"), info and order index |
| TournamentSetup.ModesOfRound | src/pages/NewTournament.jsx:219-225 | one mode row per mode, with its position |
| TournamentSetup.BuildModeRows | src/pages/NewTournament.jsx:217-226 | the `forEach` pushes equal `AllModeRows` |
| TournamentSetup.BuildSettingsRows | src/pages/NewTournament.jsx:239-251 | the `forEach` pushes equal `AllSettingsRows` (rounds without options skipped) |
| Snapshot.FirstSettings | src/pages/TournamentOverview/Content/Tournament.jsx:149 | `find`: None exactly when no settings row has the round's id, otherwise the first row in the list with that id |
| Snapshot.BuildCustomTeams | src/pages/TournamentOverview/Content/Tournament.jsx:156-164 | the `for` loop over the pairs builds `CustomTeams` |
| Snapshot.CustomTeamsSymmetric | src/pages/TournamentOverview/Content/Tournament.jsx:157-163 | with disjoint pairs the custom map is symmetric and holds exactly the players named in a pair |
| Snapshot.BuildRounds | src/pages/TournamentOverview/Content/Tournament.jsx:142-171 | one round per round record, in order, each the round `BuildRound` builds from that record (id, name, modes by position, options from its first settings row) |
| Snapshot.BuildRoundSpec | src/pages/TournamentOverview/Content/Tournament.jsx:142-171 | a round keeps id and name, has no teams, and has as modes its own mode rows sorted by position (a permutation of them); its options are null exactly when no settings row exists |
| Snapshot.SavedRoundsReload | src/pages/TournamentOverview/Content/Tournament.jsx:144-168 | modes and scramble options saved by the new-tournament page are read back unchanged |
| Snapshot.FirstScore | src/pages/TournamentOverview/Content/Tournament.jsx:177-178 | 0 when no record matches; the first record's score when it matches |
| Snapshot.FirstScoreIsFirstMatch | src/pages/TournamentOverview/Content/Tournament.jsx:177 | the score of the first matching record is taken |
| Snapshot.ScoresFor | src/pages/TournamentOverview/Content/Tournament.jsx:176-179 | one score per round, in round order, from the first matching record or 0 |
| Snapshot.MiniFor | src/pages/TournamentOverview/Content/Tournament.jsx:183-196 | one slot per round, present exactly when the player has mini-game rows for that round, and then holding that round's star map `MiniMap` |
| Snapshot.MiniMapSpec | src/pages/TournamentOverview/Content/Tournament.jsx:189-194 | a game name is in the map exactly when it is non-empty and a matching row names it (`if (gameName)` skips an empty name); when the list ends with such a row, that row's value is stored, missing as 0 |
| Snapshot.MiniMapLastMatchWins | src/pages/TournamentOverview/Content/Tournament.jsx:188-193 | the last matching row naming a non-empty game name, wherever it stands, gives that game its value, missing as 0 |
| Snapshot.Populate | src/pages/TournamentOverview/Content/Tournament.jsx:174-196 | the per-player loops build `Populated` |
| Snapshot.PopulateAll | src/pages/TournamentOverview/Content/Tournament.jsx:174-197 | every player is populated, in order |
| Snapshot.SavedScoresReload | src/pages/TournamentOverview/Content/Tournament.jsx:176-179 | the records written on save read back as the saved scores |
| Snapshot.UpdateStandingsOrder | src/pages/TournamentOverview/Content/Tournament.jsx:225-234 | with distinct ids the order is a permutation of the player ids, ascending by raw total |
| Snapshot.Tabs | src/pages/TournamentOverview/Content/Tournament.jsx:239-251 | the list is exactly standings, then mini-games when there are games, then players, then edit-scores and edit-tournament for the owner; hence no tab twice and the last tab is edit-tournament for the owner, players otherwise |
| Snapshot.PlayerObjects | src/pages/TournamentOverview/Content/Tournament.jsx:253-260 | one player object per tournament player id |
| Snapshot.PlayerObjectSpec | src/pages/TournamentOverview/Content/Tournament.jsx:253-260 | an object keeps the id and has no handicap; an unknown id gets "Okänd" and zero scores; a known one gets its scores |
| Snapshot.ObjectEntries | src/pages/TournamentOverview/Content/Tournament.jsx:253-260 | handicap-pairing entries built from player objects all have key 0 |
| Snapshot.AsWrittenPairsByListPosition | src/pages/TournamentOverview/Content/Tournament.jsx:253-260 | as written, handicap pairing on the standings page pairs the players by list position |
| Snapshot.AsWrittenHandicapExample | src/pages/TournamentOverview/Content/Tournament.jsx:253-260 | handicaps 20, 5, 10, 15 for ids 1–4: as written the first pair is [1, 4] |
| Snapshot.PairedBySortedKeys | src/pages/TournamentOverview/Content/tournamentMainPage/components/RoundInfo.jsx:65-80 | pair i joins the i-th and the (n-1-i)-th of the sorted entries, key(first) ≤ key(second) |
| Snapshot.CorrectedPairsByHandicap | src/pages/TournamentOverview/Content/tournamentMainPage/components/RoundInfo.jsx:101-110 | with handicaps present, handicap pairing joins the i-th lowest handicap with the i-th highest |
| Snapshot.CorrectedHandicapExample | src/pages/TournamentOverview/Content/tournamentMainPage/components/RoundInfo.jsx:101-110 | on the same example with handicaps the first pair starts with id 2, the lowest handicap |
| TournamentList.RoundMap | src/pages/MyTournaments.jsx:70-73 | `roundToTournament` has exactly the ids of the round rows |
| TournamentList.RoundMapLastWins | src/pages/MyTournaments.jsx:71-73 | a round id maps to the tournament of its last row |
| TournamentList.BuildRoundMap | src/pages/MyTournaments.jsx:70-73 | the `forEach` builds `RoundMap` |
| TournamentList.KeptMembers | src/pages/MyTournaments.jsx:75-80 | a score is kept for t exactly when its round maps to the non-zero tournament t |
| TournamentList.GroupScores | src/pages/MyTournaments.jsx:59-80 | the loops build `ScoreMap`: every listed id gets the scores kept for it, in order |
| TournamentList.DroppedScore | src/pages/MyTournaments.jsx:75-80 | a score whose round is unknown or whose tournament is not listed is in no group |
| TournamentList.PlayersOnce | src/pages/MyTournaments.jsx:85-89 | each player with a score appears once in the totals' key order |
| TournamentList.TotalForAppend | src/pages/MyTournaments.jsx:86-89 | a player's total over concatenated scores is the sum of the two totals |
| TournamentList.AccumulateTotals | src/pages/MyTournaments.jsx:85-89 | the loop yields the players in first-appearance order and each player's total as the sum of their scores |
| TournamentList.LeaderboardAscending | src/pages/MyTournaments.jsx:92-94 | the leaderboard is ascending by total |
| TournamentList.LeaderboardTotals | src/pages/MyTournaments.jsx:92-94 | each line's total is that player's sum of kept scores |
| TournamentList.LeaderboardOnce | src/pages/MyTournaments.jsx:92-94 | no player has two lines |
| TournamentList.LeaderboardPlayers | src/pages/MyTournaments.jsx:85-94 | a player has a line exactly when they have a kept score |
| TournamentList.TopThree | src/pages/MyTournaments.jsx:166 | the first min(3, n) lines |
| TournamentList.TopThreeAreLowest | src/pages/MyTournaments.jsx:166 | no top-three total exceeds a total below them |
| TournamentList.SortedTotals | src/pages/MyTournaments.jsx:85-94 | totals, `Object.entries`, sort and map give `Leaderboard` |
| TournamentList.AggregateScores | src/pages/MyTournaments.jsx:49-100 | every listed tournament gets a leaderboard (and no other key does), built from the scores kept for it |
| TournamentList.BoardsAreAggregated | src/pages/MyTournaments.jsx:84-97 | filling the tournaments one by one gives the per-tournament leaderboard map |
| TournamentList.NoScoresEmptyBoard | src/pages/MyTournaments.jsx:61-63 | a listed tournament without kept scores gets an empty leaderboard |

## Left out

- Database reads, writes and deletes. Query results are inputs, and the
  rows or records to write are returned values. This includes the
  delete-then-insert of the score save and the inserts of the
  new-tournament page, and deleting a tournament from the list.
- Login, registration, the start page, the header, routing, the player
  pages and the UI components: presentation or plain CRUD.
- React scheduling (effects, memo dependencies), timers, alerts,
  animations, and the rendering of info text.
- Floating point: `parseFloat` handicaps and `Math.round` of net and gross
  are integers here.
- The JSON comparison of teams is sequence equality.
- `FormData` and the string keys of its inputs are a map keyed by a
  datatype of input names.
- Nine-hole handicap halving, the percentage-weighted scramble team
  handicaps (`lowPct`/`highPct` are stored, never used) and the use of
  custom pairs in pairing are not in the source. A "custom" pairing falls
  through to the prior-total key, as in the source.
- The free-text setters (tournament name, round name, info text, team
  captains, mini-game names) are one-line field updates and are left out.
- The initial gross values are computed by an effect. Only their relation
  to the net field is modelled (`ScoreEntry.NetOfInitialGross`).
- The rounds of a loaded tournament always start with `teams: []`, and the
  model keeps that.
- The net field: a cleared gross reads as the number 0, so net is
  max(0, −hcp), as in the source. A handicap that is not a number yields no
  net.
- The second mode added to a round is the empty label, `Unselected`.
- Aliasing: the setup page handlers (`TournamentSetup.RoundForm`) copy the
  rounds array shallowly and then mutate a round object in place, and the
  carousel's team write-back (`RoundInfo.Carousel.WriteBack`,
  RoundInfo.jsx:129-130) assigns into the shared round object too. The
  model replaces the round by value in both, so the previous state's view
  of that shared round object is not modelled.
- Custom teams are read into the round options, but nothing in the core
  uses them.
- The standings page uses two player lists. The table uses the tournament's
  player data, and the podium check uses the player objects. Each is an
  input to its function.
- `TournamentList.AccumulateTotals`: `Object.entries` lists integer-like keys
  in ascending numeric order. The model lists players in first-appearance
  order, so lines with equal totals may be ordered differently.
- The player name shown for a top-three entry comes from a join on the
  string key of the totals, which is presentation and is not modelled.
- A tournament id of 0 is falsy in the source and drops the score; the
  model keeps that behaviour (`TournamentOf`).
- Player ids, round ids and tournament ids are integers. The conversion of
  object keys to strings (the totals' player ids, the leaderboard map's
  tournament ids) is not modelled.
- `Snapshot.UpdateStandingsOrder`, `ScoreEntry.StandingsOrderProperties`:
  stated for distinct player ids only. With repeated ids, totals by id are
  not well defined.

## Findings

| source | as written | input that shows it | evidently intended | confidence | as-written member | corrected member |
|---|---|---|---|---|---|---|
| src/pages/TournamentOverview/Content/Tournament.jsx:253-260 | the standings page hands the carousel player objects without a handicap, so handicap pairing there sorts every player by key 0 and pairs by list position | handicaps 20, 5, 10, 15 for ids 1–4: the first pair is [1, 4] instead of starting with id 2 | pair the lowest handicap with the highest, as the score editor does | high (not executed) | Snapshot.AsWrittenPairsByListPosition, Snapshot.AsWrittenHandicapExample | Snapshot.CorrectedPairsByHandicap, Snapshot.CorrectedHandicapExample |
| src/pages/TournamentOverview/Content/tournamentMainPage/components/TournamentStandings.jsx:42-44 | `teamStandings` reads `team_data.assignments` without a guard, but `team_data` is null when team mode is off (src/pages/NewTournament.jsx:143-152) | a tournament without teams and with one player: the standings page throws | no team data means no assignments, both team totals 0 | high (not executed) | Standings.TeamStandingsAsWritten, Standings.TeamStandingsAsWrittenFailsWithoutTeams | Standings.TeamStandings, Standings.TeamStandingsProperties, Standings.TeamStandingsWithoutTeams |
| src/pages/NewTournament.jsx:89-94 | leaving scramble is tested after the new mode overwrote the modes, so the options survive | a round with modes [scramble] switched to stroke play (which = 0): modes [stroke play], scramble options kept | clear the scramble options when the round leaves scramble | high (not executed) | TournamentSetup.ModeChangedAsWritten, TournamentSetup.RoundForm.RoundModeChange, TournamentSetup.LeavingScrambleKeepsOptions, TournamentSetup.AsWrittenDiffersOnlyLeavingScramble | TournamentSetup.ModeChanged, TournamentSetup.ModeChangedKeepsOptionsWithScramble |
