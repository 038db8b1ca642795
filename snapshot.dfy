/** The tournament page's snapshot: round objects built from the stored round,
    mode, settings and pair rows; per-player score and mini-game vectors built
    from flat records; the previous standings; the tab list; and the slim
    player objects handed to the standings and the round carousel. */
module Snapshot {
  import opened Common
  import opened Sorting
  import opened TournamentSetup
  import ScoreEntry
  import Pairing
  import RoundInfo

  /** A stored round (already ordered by `order_index`). */
  datatype RoundRecord = RoundRecord(id: RoundId, name: string)

  /** A stored custom scramble pair. */
  datatype PairRecord = PairRecord(roundId: RoundId, player1: PlayerId, player2: PlayerId)

  /** A stored mini-game value joined with its game's name (None when the
      join found no game). */
  datatype MiniScoreRow = MiniScoreRow(roundId: RoundId, playerId: PlayerId, gameName: Option<string>, value: Option<int>)

  // ----------------------------------------------------------------- rounds

  /** `modesData.filter((m) => m.round_id === round.id)`. */
  function RowsOf(rows: seq<ModeRow>, roundId: RoundId): seq<ModeRow> {
    if rows == [] then []
    else
      var n := |rows| - 1;
      RowsOf(rows[..n], roundId) + (if rows[n].roundId == roundId then [rows[n]] else [])
  }

  function ModePosition(m: ModeRow): int {
    m.position
  }

  function Labels(rows: seq<ModeRow>): (r: seq<GameMode>)
    ensures |r| == |rows| && forall i :: 0 <= i < |rows| ==> r[i] == rows[i].mode
  {
    seq(|rows|, i requires 0 <= i < |rows| => rows[i].mode)
  }

  /** A round's modes: its own rows, sorted by position. */
  function ModesFor(rows: seq<ModeRow>, roundId: RoundId): seq<GameMode> {
    Labels(SortBy(RowsOf(rows, roundId), ModePosition))
  }

  /** `scrambleData.find((s) => s.round_id === round.id)`. */
  function FirstSettings(settings: seq<SettingsRow>, roundId: RoundId): (r: Option<SettingsRow>)
    ensures r.Some? ==> r.value in settings && r.value.roundId == roundId
    ensures r.None? <==> forall s :: s in settings ==> s.roundId != roundId
    ensures r.Some? ==> exists k :: 0 <= k < |settings| && settings[k] == r.value
                                  && forall j :: 0 <= j < k ==> settings[j].roundId != roundId
  {
    if settings == [] then None
    else if settings[0].roundId == roundId then Some(settings[0])
    else
      assert settings == [settings[0]] + settings[1..];
      FirstSettings(settings[1..], roundId)
  }

  /** The custom-pair map of a round: both directions of every pair record
      of the round, later records overwriting earlier ones. */
  function CustomTeams(pairs: seq<PairRecord>, roundId: RoundId): map<PlayerId, PlayerId> {
    if pairs == [] then map[]
    else
      var n := |pairs| - 1;
      var p := pairs[n];
      var m := CustomTeams(pairs[..n], roundId);
      if p.roundId == roundId then m[p.player1 := p.player2][p.player2 := p.player1] else m
  }

  /** The `for (const pair of pairs)` loop. */
  method BuildCustomTeams(pairsData: seq<PairRecord>, roundId: RoundId) returns (teams: map<PlayerId, PlayerId>)
    ensures teams == CustomTeams(pairsData, roundId)
  {
    teams := map[];
    for k := 0 to |pairsData|
      invariant teams == CustomTeams(pairsData[..k], roundId)
    {
      assert pairsData[..k + 1][..k] == pairsData[..k];
      var pair := pairsData[k];
      if pair.roundId == roundId {
        teams := teams[pair.player1 := pair.player2];
        teams := teams[pair.player2 := pair.player1];
      }
    }
    assert pairsData[..|pairsData|] == pairsData;
  }

  /** The pair records of a round share no player. */
  predicate PairsDisjoint(pairs: seq<PairRecord>, roundId: RoundId) {
    forall a, b :: 0 <= a < b < |pairs| && pairs[a].roundId == roundId && pairs[b].roundId == roundId ==>
      pairs[a].player1 != pairs[b].player1 && pairs[a].player1 != pairs[b].player2
      && pairs[a].player2 != pairs[b].player1 && pairs[a].player2 != pairs[b].player2
  }

  predicate Mentions(pairs: seq<PairRecord>, roundId: RoundId, x: PlayerId) {
    exists k :: 0 <= k < |pairs| && pairs[k].roundId == roundId && (pairs[k].player1 == x || pairs[k].player2 == x)
  }

  /** Every key maps to a key that maps back. */
  predicate Symmetric(m: map<PlayerId, PlayerId>) {
    forall x :: x in m ==> m[x] in m && m[m[x]] == x
  }

  lemma SymmetricUpdate(m: map<PlayerId, PlayerId>, a: PlayerId, b: PlayerId)
    requires Symmetric(m) && a !in m && b !in m
    ensures Symmetric(m[a := b][b := a])
  {
    var m' := m[a := b][b := a];
    forall x | x in m' ensures m'[x] in m' && m'[m'[x]] == x {
      if x != a && x != b {
        assert x in m;
        var y := m[x];
        assert y in m && m[y] == x;
        assert y != a && y != b;
      }
    }
  }

  /** With disjoint pairs the map is symmetric: every player of a pair maps
      to the partner and back, and only paired players are keys. */
  lemma {:induction false} CustomTeamsSymmetric(pairs: seq<PairRecord>, roundId: RoundId)
    requires PairsDisjoint(pairs, roundId)
    ensures Symmetric(CustomTeams(pairs, roundId))
    ensures forall x :: x in CustomTeams(pairs, roundId) <==> Mentions(pairs, roundId, x)
  {
    if pairs != [] {
      var n := |pairs| - 1;
      var init := pairs[..n];
      assert PairsDisjoint(init, roundId);
      CustomTeamsSymmetric(init, roundId);
      var p := pairs[n];
      var m := CustomTeams(init, roundId);
      if p.roundId == roundId {
        assert !Mentions(init, roundId, p.player1) && !Mentions(init, roundId, p.player2);
        SymmetricUpdate(m, p.player1, p.player2);
      }
      forall x ensures x in CustomTeams(pairs, roundId) <==> Mentions(pairs, roundId, x) {
        if Mentions(init, roundId, x) {
          var k :| 0 <= k < |init| && init[k].roundId == roundId && (init[k].player1 == x || init[k].player2 == x);
          assert pairs[k] == init[k];
        }
      }
    }
  }

  function OptionsOf(row: SettingsRow, customTeams: map<PlayerId, PlayerId>): ScrambleOptions {
    ScrambleOptions(row.withHandicap, row.pairing, row.lowPct, row.highPct, customTeams)
  }

  /** One round object: its modes by position, the options of its first
      settings row with the custom pairs (or none), and no stored pairs. */
  function BuildRound(rec: RoundRecord, modeRows: seq<ModeRow>, settings: seq<SettingsRow>, pairs: seq<PairRecord>): Round {
    var options := match FirstSettings(settings, rec.id)
      case None => None
      case Some(row) => Some(OptionsOf(row, CustomTeams(pairs, rec.id)));
    Round(rec.id, rec.name, ModesFor(modeRows, rec.id), options, [])
  }

  /** `roundsData.map(...)`. */
  function BuildRounds(recs: seq<RoundRecord>, modeRows: seq<ModeRow>, settings: seq<SettingsRow>, pairs: seq<PairRecord>)
    : (r: seq<Round>)
    ensures |r| == |recs|
    ensures forall i :: 0 <= i < |recs| ==> r[i] == BuildRound(recs[i], modeRows, settings, pairs)
  {
    seq(|recs|, i requires 0 <= i < |recs| => BuildRound(recs[i], modeRows, settings, pairs))
  }

  /** A built round keeps its id and name, lists exactly its own mode rows
      in ascending position (ties in stored order), has options exactly when
      a settings row exists for it, and starts without stored pairs. */
  lemma BuildRoundSpec(rec: RoundRecord, modeRows: seq<ModeRow>, settings: seq<SettingsRow>, pairs: seq<PairRecord>)
    ensures var r := BuildRound(rec, modeRows, settings, pairs);
            var own := SortBy(RowsOf(modeRows, rec.id), ModePosition);
            && r.id == rec.id && r.name == rec.name && r.teams == []
            && multiset(own) == multiset(RowsOf(modeRows, rec.id))
            && (forall m :: m in own ==> m in modeRows && m.roundId == rec.id)
            && (forall i, j :: 0 <= i < j < |own| ==> own[i].position <= own[j].position)
            && r.modes == Labels(own)
            && (r.scrambleOptions.None? <==> forall s :: s in settings ==> s.roundId != rec.id)
  {
    var own := SortBy(RowsOf(modeRows, rec.id), ModePosition);
    forall m | m in own ensures m in modeRows && m.roundId == rec.id {
      assert m in multiset(RowsOf(modeRows, rec.id));
      RowsOfMembers(modeRows, rec.id, m);
    }
    assert SortedBy(own, ModePosition);
  }

  lemma {:induction false} RowsOfMembers(rows: seq<ModeRow>, roundId: RoundId, m: ModeRow)
    ensures m in RowsOf(rows, roundId) <==> m in rows && m.roundId == roundId
  {
    if rows != [] {
      var n := |rows| - 1;
      RowsOfMembers(rows[..n], roundId, m);
      assert rows == rows[..n] + [rows[n]];
    }
  }

  lemma {:induction false} RowsOfAppend(a: seq<ModeRow>, b: seq<ModeRow>, roundId: RoundId)
    ensures RowsOf(a + b, roundId) == RowsOf(a, roundId) + RowsOf(b, roundId)
    decreases |b|
  {
    if b == [] {
      assert a + b == a;
    } else {
      var n := |b| - 1;
      assert (a + b)[..|a + b| - 1] == a + b[..n];
      RowsOfAppend(a, b[..n], roundId);
    }
  }

  lemma {:induction false} RowsOfOneRound(id: RoundId, modes: seq<GameMode>, roundId: RoundId)
    ensures RowsOf(ModesOfRound(id, modes), roundId) == if id == roundId then ModesOfRound(id, modes) else []
  {
    if modes != [] {
      var n := |modes| - 1;
      RowsOfOneRound(id, modes[..n], roundId);
      assert ModesOfRound(id, modes)[..n] == ModesOfRound(id, modes[..n]);
    }
  }

  /** The mode rows saved for round i are the only rows of its id. */
  lemma {:induction false} SavedModeRowsOfRound(roundIds: seq<RoundId>, rounds: seq<RoundDraft>, i: nat)
    requires |roundIds| == |rounds| && i < |rounds|
    requires forall a, b :: 0 <= a < b < |roundIds| ==> roundIds[a] != roundIds[b]
    ensures RowsOf(AllModeRows(roundIds, rounds), roundIds[i]) == ModesOfRound(roundIds[i], rounds[i].modes)
  {
    var n := |rounds| - 1;
    RowsOfAppend(AllModeRows(roundIds[..n], rounds[..n]), ModesOfRound(roundIds[n], rounds[n].modes), roundIds[i]);
    RowsOfOneRound(roundIds[n], rounds[n].modes, roundIds[i]);
    if i == n {
      NoRowsOfOtherId(roundIds[..n], rounds[..n], roundIds[n]);
    } else {
      SavedModeRowsOfRound(roundIds[..n], rounds[..n], i);
    }
  }

  lemma {:induction false} NoRowsOfOtherId(roundIds: seq<RoundId>, rounds: seq<RoundDraft>, roundId: RoundId)
    requires |roundIds| == |rounds| && roundId !in roundIds
    ensures RowsOf(AllModeRows(roundIds, rounds), roundId) == []
  {
    if rounds != [] {
      var n := |rounds| - 1;
      RowsOfAppend(AllModeRows(roundIds[..n], rounds[..n]), ModesOfRound(roundIds[n], rounds[n].modes), roundId);
      RowsOfOneRound(roundIds[n], rounds[n].modes, roundId);
      assert roundIds[n] in roundIds;
      assert forall x :: x in roundIds[..n] ==> x in roundIds;
      NoRowsOfOtherId(roundIds[..n], rounds[..n], roundId);
    }
  }

  lemma {:induction false} FirstSettingsAppend(a: seq<SettingsRow>, b: seq<SettingsRow>, roundId: RoundId)
    ensures FirstSettings(a + b, roundId) == if FirstSettings(a, roundId).Some? then FirstSettings(a, roundId) else FirstSettings(b, roundId)
  {
    if a != [] {
      assert (a + b)[1..] == a[1..] + b;
      FirstSettingsAppend(a[1..], b, roundId);
    } else {
      assert a + b == b;
    }
  }

  /** The settings row saved for round i is the first (and only) of its id. */
  lemma {:induction false} SavedSettingsOfRound(roundIds: seq<RoundId>, rounds: seq<RoundDraft>, i: nat)
    requires |roundIds| == |rounds| && i < |rounds|
    requires forall a, b :: 0 <= a < b < |roundIds| ==> roundIds[a] != roundIds[b]
    ensures FirstSettings(AllSettingsRows(roundIds, rounds), roundIds[i])
         == if rounds[i].scrambleOptions.Some? then Some(SettingsOf(roundIds[i], rounds[i].scrambleOptions.value)) else None
  {
    var n := |rounds| - 1;
    var prefix := AllSettingsRows(roundIds[..n], rounds[..n]);
    var last := if rounds[n].scrambleOptions.Some? then [SettingsOf(roundIds[n], rounds[n].scrambleOptions.value)] else [];
    FirstSettingsAppend(prefix, last, roundIds[i]);
    if i == n {
      assert roundIds[n] !in roundIds[..n];
      NoSettingsOfOtherId(roundIds[..n], rounds[..n], roundIds[n]);
    } else {
      SavedSettingsOfRound(roundIds[..n], rounds[..n], i);
    }
  }

  lemma {:induction false} NoSettingsOfOtherId(roundIds: seq<RoundId>, rounds: seq<RoundDraft>, roundId: RoundId)
    requires |roundIds| == |rounds| && roundId !in roundIds
    ensures FirstSettings(AllSettingsRows(roundIds, rounds), roundId) == None
  {
    if rounds != [] {
      var n := |rounds| - 1;
      var last := if rounds[n].scrambleOptions.Some? then [SettingsOf(roundIds[n], rounds[n].scrambleOptions.value)] else [];
      FirstSettingsAppend(AllSettingsRows(roundIds[..n], rounds[..n]), last, roundId);
      assert roundIds[n] in roundIds;
      assert forall x :: x in roundIds[..n] ==> x in roundIds;
      NoSettingsOfOtherId(roundIds[..n], rounds[..n], roundId);
    }
  }

  /** Saving rounds and loading them back: with distinct round ids, every
      loaded round has the modes and the scramble options of its draft
      (the form's options carry no custom pairs). */
  lemma SavedRoundsReload(roundIds: seq<RoundId>, drafts: seq<RoundDraft>, i: nat)
    requires |roundIds| == |drafts| && i < |drafts|
    requires forall a, b :: 0 <= a < b < |roundIds| ==> roundIds[a] != roundIds[b]
    requires drafts[i].scrambleOptions.Some? ==> drafts[i].scrambleOptions.value.customTeams == map[]
    ensures var r := BuildRound(RoundRecord(roundIds[i], drafts[i].name), AllModeRows(roundIds, drafts),
                                AllSettingsRows(roundIds, drafts), []);
            r.modes == drafts[i].modes && r.scrambleOptions == drafts[i].scrambleOptions
  {
    var id := roundIds[i];
    SavedModeRowsOfRound(roundIds, drafts, i);
    var own := ModesOfRound(id, drafts[i].modes);
    assert SortedBy(own, ModePosition);
    SortBySortedIsIdentity(own, ModePosition);
    assert Labels(own) == drafts[i].modes;
    SavedSettingsOfRound(roundIds, drafts, i);
  }

  // ----------------------------------------------------------------- scores

  /** `scoresData.find(...)?.score || 0`. */
  function FirstScore(records: seq<ScoreEntry.ScoreRecord>, roundId: RoundId, playerId: PlayerId): (r: int)
    ensures (forall s :: s in records ==> !(s.roundId == roundId && s.playerId == playerId)) ==> r == 0
    ensures |records| > 0 && records[0].roundId == roundId && records[0].playerId == playerId ==> r == records[0].score
  {
    if records == [] then 0
    else if records[0].roundId == roundId && records[0].playerId == playerId then records[0].score
    else
      assert records == [records[0]] + records[1..];
      FirstScore(records[1..], roundId, playerId)
  }

  /** The value of the first matching record is the one taken. */
  lemma {:induction false} FirstScoreIsFirstMatch(records: seq<ScoreEntry.ScoreRecord>, roundId: RoundId, playerId: PlayerId, k: nat)
    requires k < |records| && records[k].roundId == roundId && records[k].playerId == playerId
    requires forall j :: 0 <= j < k ==> !(records[j].roundId == roundId && records[j].playerId == playerId)
    ensures FirstScore(records, roundId, playerId) == records[k].score
  {
    if k > 0 {
      FirstScoreIsFirstMatch(records[1..], roundId, playerId, k - 1);
    }
  }

  /** The score vector of a player: one entry per round, in round order. */
  function ScoresFor(rounds: seq<Round>, records: seq<ScoreEntry.ScoreRecord>, playerId: PlayerId): (r: seq<int>)
    ensures |r| == |rounds|
    ensures forall i :: 0 <= i < |rounds| ==> r[i] == FirstScore(records, rounds[i].id, playerId)
  {
    seq(|rounds|, i requires 0 <= i < |rounds| => FirstScore(records, rounds[i].id, playerId))
  }

  predicate RowMatches(row: MiniScoreRow, roundId: RoundId, playerId: PlayerId) {
    row.roundId == roundId && row.playerId == playerId
  }

  /** `if (gameName)`: a row names a game only when the name is present and
      not empty. */
  predicate Names(row: MiniScoreRow, name: string) {
    row.gameName == Some(name) && name != ""
  }

  /** The stars of one round: each matching row with a non-empty game name
      sets that name to its value (a missing value as 0), later rows
      overwriting. */
  function MiniMap(rows: seq<MiniScoreRow>, roundId: RoundId, playerId: PlayerId): map<string, int> {
    if rows == [] then map[]
    else
      var n := |rows| - 1;
      var row := rows[n];
      var m := MiniMap(rows[..n], roundId, playerId);
      if RowMatches(row, roundId, playerId) && row.gameName.Some? && row.gameName.value != ""
      then m[row.gameName.value := row.value.GetOr(0)] else m
  }

  predicate HasMiniRows(rows: seq<MiniScoreRow>, roundId: RoundId, playerId: PlayerId) {
    exists row :: row in rows && RowMatches(row, roundId, playerId)
  }

  /** A round gets an entry only when the player has rows for it. */
  function MiniFor(rounds: seq<Round>, rows: seq<MiniScoreRow>, playerId: PlayerId): (r: seq<Option<map<string, int>>>)
    ensures |r| == |rounds|
    ensures forall i :: 0 <= i < |rounds| ==> (r[i].Some? <==> HasMiniRows(rows, rounds[i].id, playerId))
    ensures forall i :: 0 <= i < |rounds| && r[i].Some? ==> r[i].value == MiniMap(rows, rounds[i].id, playerId)
  {
    seq(|rounds|, i requires 0 <= i < |rounds| =>
      if HasMiniRows(rows, rounds[i].id, playerId) then Some(MiniMap(rows, rounds[i].id, playerId)) else None)
  }

  /** The last of the player's rows naming a game gives that game its value,
      wherever it stands in the list. */
  lemma {:induction false} MiniMapLastMatchWins(rows: seq<MiniScoreRow>, roundId: RoundId, playerId: PlayerId, name: string, k: nat)
    requires k < |rows| && RowMatches(rows[k], roundId, playerId) && Names(rows[k], name)
    requires forall j :: k < j < |rows| ==> !(RowMatches(rows[j], roundId, playerId) && Names(rows[j], name))
    ensures name in MiniMap(rows, roundId, playerId)
    ensures MiniMap(rows, roundId, playerId)[name] == rows[k].value.GetOr(0)
  {
    var n := |rows| - 1;
    if k < n {
      assert forall j :: k < j < n ==> rows[..n][j] == rows[j];
      MiniMapLastMatchWins(rows[..n], roundId, playerId, name, k);
    }
  }

  /** The stars of a round name exactly the games of the player's rows with
      a non-empty game name, the last such row giving the value; a row with
      an empty name is skipped. */
  lemma {:induction false} MiniMapSpec(rows: seq<MiniScoreRow>, roundId: RoundId, playerId: PlayerId, name: string)
    ensures name in MiniMap(rows, roundId, playerId) <==>
      exists k :: 0 <= k < |rows| && RowMatches(rows[k], roundId, playerId) && Names(rows[k], name)
    ensures |rows| > 0 && RowMatches(rows[|rows| - 1], roundId, playerId) && Names(rows[|rows| - 1], name) ==>
      MiniMap(rows, roundId, playerId)[name] == rows[|rows| - 1].value.GetOr(0)
  {
    if rows != [] {
      var n := |rows| - 1;
      MiniMapSpec(rows[..n], roundId, playerId, name);
      if name in MiniMap(rows[..n], roundId, playerId) {
        var k :| 0 <= k < n && RowMatches(rows[..n][k], roundId, playerId) && Names(rows[..n][k], name);
        assert rows[k] == rows[..n][k];
      }
      if exists k :: 0 <= k < |rows| && RowMatches(rows[k], roundId, playerId) && Names(rows[k], name) {
        var k :| 0 <= k < |rows| && RowMatches(rows[k], roundId, playerId) && Names(rows[k], name);
        if k < n {
          assert rows[..n][k] == rows[k];
        }
      }
    }
  }

  /** A player with the vectors of the loaded records. */
  function Populated(p: PlayerData, rounds: seq<Round>, scoreRows: seq<ScoreEntry.ScoreRecord>, miniRows: seq<MiniScoreRow>)
    : PlayerData
  {
    p.(scores := ScoresFor(rounds, scoreRows, p.id), miniGameScores := MiniFor(rounds, miniRows, p.id))
  }

  /** The `playerData.forEach` body: a score per round, then a star map per
      round that has rows. */
  method Populate(player: PlayerData, rounds: seq<Round>, scoresData: seq<ScoreEntry.ScoreRecord>,
                  miniGameScoresData: seq<MiniScoreRow>) returns (p: PlayerData)
    ensures p == Populated(player, rounds, scoresData, miniGameScoresData)
  {
    var scores: seq<int> := [];
    var miniGameScores: seq<Option<map<string, int>>> := [];
    for i := 0 to |rounds|
      invariant |scores| == i && |miniGameScores| == i
      invariant forall k :: 0 <= k < i ==> scores[k] == FirstScore(scoresData, rounds[k].id, player.id)
      invariant forall k :: 0 <= k < i ==> miniGameScores[k] == MiniFor(rounds, miniGameScoresData, player.id)[k]
    {
      var r := rounds[i];
      scores := scores + [FirstScore(scoresData, r.id, player.id)];
      var forRound := false;
      var stars: map<string, int> := map[];
      for k := 0 to |miniGameScoresData|
        invariant forRound <==> HasMiniRows(miniGameScoresData[..k], r.id, player.id)
        invariant stars == MiniMap(miniGameScoresData[..k], r.id, player.id)
      {
        assert miniGameScoresData[..k + 1][..k] == miniGameScoresData[..k];
        var mg := miniGameScoresData[k];
        if RowMatches(mg, r.id, player.id) {
          forRound := true;
          if mg.gameName.Some? && mg.gameName.value != "" {
            stars := stars[mg.gameName.value := mg.value.GetOr(0)];
          }
        }
        assert miniGameScoresData[..k + 1] == miniGameScoresData[..k] + [mg];
      }
      assert miniGameScoresData[..|miniGameScoresData|] == miniGameScoresData;
      miniGameScores := miniGameScores + [if forRound then Some(stars) else None];
    }
    p := player.(scores := scores, miniGameScores := miniGameScores);
  }

  /** Every player of the tournament, populated in place. */
  method PopulateAll(playerData: seq<PlayerData>, rounds: seq<Round>, scoresData: seq<ScoreEntry.ScoreRecord>,
                     miniGameScoresData: seq<MiniScoreRow>) returns (players: seq<PlayerData>)
    ensures |players| == |playerData|
    ensures forall i :: 0 <= i < |playerData| ==> players[i] == Populated(playerData[i], rounds, scoresData, miniGameScoresData)
  {
    players := [];
    for i := 0 to |playerData|
      invariant |players| == i
      invariant forall k :: 0 <= k < i ==> players[k] == Populated(playerData[k], rounds, scoresData, miniGameScoresData)
    {
      var p := Populate(playerData[i], rounds, scoresData, miniGameScoresData);
      players := players + [p];
    }
  }

  /** Scores saved from the edit form load back as the saved vector: the
      record of each round is the first one for that round and player. */
  lemma SavedScoresReload(rounds: seq<Round>, id: PlayerId, form: ScoreEntry.FormData, i: nat)
    requires i < |rounds|
    requires forall a, b :: 0 <= a < b < |rounds| ==> rounds[a].id != rounds[b].id
    ensures FirstScore(ScoreEntry.ScoreRecordsFor(rounds, id, form), rounds[i].id, id)
         == ScoreEntry.RoundScores(rounds, id, form)[i]
  {
    var recs := ScoreEntry.ScoreRecordsFor(rounds, id, form);
    FirstScoreIsFirstMatch(recs, rounds[i].id, id, i);
  }

  // -------------------------------------------------------------- standings

  /** `updateStandings`: the player ids ascending by raw total, the same
      order the edit form snapshots before saving. */
  lemma UpdateStandingsOrder(playerData: seq<PlayerData>)
    requires ScoreEntry.DistinctIds(playerData)
    ensures var order := ScoreEntry.StandingsOrder(playerData);
            && multiset(order) == multiset(PlayerIds(playerData))
            && forall i, j :: 0 <= i < j < |playerData| ==>
                 ScoreEntry.TotalOf(playerData, order[i]) <= ScoreEntry.TotalOf(playerData, order[j])
  {
    ScoreEntry.StandingsOrderProperties(playerData);
  }

  // ------------------------------------------------------------------- tabs

  datatype Tab = StandingsTab | MiniGamesTab | PlayersTab | EditScoresTab | EditTournamentTab

  /** The tab bar: standings, mini games when there are any, players, and
      for the owner the two edit tabs, each added only if not yet present. */
  method Tabs(hasMiniGames: bool, isAdmin: bool) returns (tabs: seq<Tab>)
    ensures |tabs| > 0 && tabs[0] == StandingsTab
    ensures MiniGamesTab in tabs <==> hasMiniGames
    ensures PlayersTab in tabs
    ensures EditScoresTab in tabs <==> isAdmin
    ensures EditTournamentTab in tabs <==> isAdmin
    ensures forall a, b :: 0 <= a < b < |tabs| ==> tabs[a] != tabs[b]
    ensures tabs[|tabs| - 1] == if isAdmin then EditTournamentTab else PlayersTab
    ensures tabs == [StandingsTab] + (if hasMiniGames then [MiniGamesTab] else []) + [PlayersTab]
                    + (if isAdmin then [EditScoresTab, EditTournamentTab] else [])
  {
    tabs := [StandingsTab] + (if hasMiniGames then [MiniGamesTab] else []) + [PlayersTab];
    if isAdmin && EditScoresTab !in tabs {
      tabs := tabs + [EditScoresTab];
    }
    if isAdmin && EditTournamentTab !in tabs {
      tabs := tabs + [EditTournamentTab];
    }
  }

  // -------------------------------------------------------- player objects

  function Zeros(n: nat): (r: seq<int>)
    ensures |r| == n && forall i :: 0 <= i < n ==> r[i] == 0
  {
    seq(n, _ => 0)
  }

  /** The slim player object of one tournament player id: id, name (or
      "Okänd") and scores (or one 0 per round); no handicap, no stars. */
  function PlayerObject(id: PlayerId, playerData: seq<PlayerData>, nRounds: nat): PlayerData {
    match FindPlayer(playerData, id)
    case Some(p) => PlayerData(if p.id != 0 then p.id else id, if p.name != "" then p.name else "Okänd", None, p.scores, [])
    case None => PlayerData(id, "Okänd", None, Zeros(nRounds), [])
  }

  /** `playerObjects`: one per tournament player id. */
  function PlayerObjects(ids: seq<PlayerId>, playerData: seq<PlayerData>, nRounds: nat): (r: seq<PlayerData>)
    ensures |r| == |ids|
    ensures forall i :: 0 <= i < |ids| ==> r[i] == PlayerObject(ids[i], playerData, nRounds)
  {
    seq(|ids|, i requires 0 <= i < |ids| => PlayerObject(ids[i], playerData, nRounds))
  }

  /** Each object keeps the id it was made for and drops the handicap; an
      unknown id is "Okänd" with a 0 per round; a known one keeps the scores. */
  lemma PlayerObjectSpec(id: PlayerId, playerData: seq<PlayerData>, nRounds: nat)
    ensures var o := PlayerObject(id, playerData, nRounds);
            && o.id == id && o.handicap == None
            && ((forall p :: p in playerData ==> p.id != id) ==> o.name == "Okänd" && o.scores == Zeros(nRounds))
            && (forall p :: p in playerData && p.id == id && FindPlayer(playerData, id) == Some(p) ==> o.scores == p.scores)
  {
  }

  // ------------------------------------------- handicap pairing in the carousel

  lemma {:induction false} AllEntriesAt(players: seq<PlayerData>, byHandicap: bool, roundIndex: nat, k: nat)
    requires k < |players|
    ensures |Pairing.AllEntries(players, byHandicap, roundIndex)| == |players|
    ensures Pairing.AllEntries(players, byHandicap, roundIndex)[k]
         == Pairing.Entry(players[k].id, Pairing.PairingKey(players[k], byHandicap, roundIndex))
  {
    Pairing.AllEntriesIds(players, byHandicap, roundIndex);
    if k > 0 {
      AllEntriesAt(players[1..], byHandicap, roundIndex, k - 1);
    }
  }

  /** Entries already in key order are paired by list position. */
  lemma PairedInOrder(entries: seq<Pairing.Entry>)
    requires SortedBy(entries, Pairing.EntryKey)
    ensures |Pairing.Paired(entries)| == |entries| / 2 + |entries| % 2
    ensures forall i :: 0 <= i < |entries| / 2 ==>
              Pairing.Paired(entries)[i] == [entries[i].id, entries[|entries| - 1 - i].id]
  {
    SortBySortedIsIdentity(entries, Pairing.EntryKey);
    assert Pairing.Paired(entries) == Pairing.PairOff(entries);
    Pairing.PairOffShape(entries);
  }

  /** Entries whose keys are all 0 are paired by list position. */
  lemma PairedZeroKeys(entries: seq<Pairing.Entry>, ids: seq<PlayerId>)
    requires |entries| == |ids|
    requires forall k :: 0 <= k < |ids| ==> entries[k] == Pairing.Entry(ids[k], 0)
    ensures |Pairing.Paired(entries)| == |ids| / 2 + |ids| % 2
    ensures forall i :: 0 <= i < |ids| / 2 ==> Pairing.Paired(entries)[i] == [ids[i], ids[|ids| - 1 - i]]
  {
    assert SortedBy(entries, Pairing.EntryKey);
    PairedInOrder(entries);
  }

  /** As written the carousel pairs the player objects, which carry no
      handicap: under "handicap" pairing every key is 0, so the pairs are
      made by list position (first with last, and so on), whatever the
      players' handicaps. */
  lemma AsWrittenPairsByListPosition(round: Round, activeIdx: nat, playerData: seq<PlayerData>, nRounds: nat)
    requires Pairing.PairsByHandicap(round) && round.teams == []
    ensures var objs := PlayerObjects(PlayerIds(playerData), playerData, nRounds);
            var teams := RoundInfo.GeneratedTeams(round, activeIdx, objs, None);
            && |teams| == |playerData| / 2 + |playerData| % 2
            && forall i :: 0 <= i < |playerData| / 2 ==> teams[i] == [playerData[i].id, playerData[|playerData| - 1 - i].id]
  {
    var objs := PlayerObjects(PlayerIds(playerData), playerData, nRounds);
    var entries := Pairing.AllEntries(objs, true, activeIdx);
    var ids := seq(|playerData|, k requires 0 <= k < |playerData| => playerData[k].id);
    ObjectEntries(playerData, nRounds, activeIdx);
    PairedZeroKeys(entries, ids);
    TeamsArePaired(round, activeIdx, objs);
  }

  /** Without stored pairs a handicap round's pairs are generated afresh
      from all players. */
  lemma TeamsArePaired(round: Round, activeIdx: nat, players: seq<PlayerData>)
    requires Pairing.PairsByHandicap(round) && round.teams == []
    ensures RoundInfo.GeneratedTeams(round, activeIdx, players, None) == Pairing.Paired(Pairing.AllEntries(players, true, activeIdx))
  {
  }

  /** The pairing entries of the player objects: their ids in list order,
      every key 0. */
  lemma ObjectEntries(playerData: seq<PlayerData>, nRounds: nat, activeIdx: nat)
    ensures var entries := Pairing.AllEntries(PlayerObjects(PlayerIds(playerData), playerData, nRounds), true, activeIdx);
            && |entries| == |playerData|
            && forall k :: 0 <= k < |playerData| ==> entries[k] == Pairing.Entry(playerData[k].id, 0)
  {
    var ids := PlayerIds(playerData);
    var objs := PlayerObjects(ids, playerData, nRounds);
    Pairing.AllEntriesIds(objs, true, activeIdx);
    forall k | 0 <= k < |playerData|
      ensures Pairing.AllEntries(objs, true, activeIdx)[k] == Pairing.Entry(playerData[k].id, 0)
    {
      AllEntriesAt(objs, true, activeIdx, k);
      PlayerObjectSpec(ids[k], playerData, nRounds);
    }
  }

  /** The pairing entries of the full player data: their ids in list order,
      each keyed by the player's handicap (0 when missing). */
  lemma HandicapEntries(playerData: seq<PlayerData>, activeIdx: nat)
    ensures var entries := Pairing.AllEntries(playerData, true, activeIdx);
            && |entries| == |playerData|
            && forall k :: 0 <= k < |playerData| ==>
                 entries[k] == Pairing.Entry(playerData[k].id, playerData[k].handicap.GetOr(0))
  {
    Pairing.AllEntriesIds(playerData, true, activeIdx);
    forall k | 0 <= k < |playerData|
      ensures Pairing.AllEntries(playerData, true, activeIdx)[k]
           == Pairing.Entry(playerData[k].id, playerData[k].handicap.GetOr(0))
    {
      AllEntriesAt(playerData, true, activeIdx, k);
    }
  }

  /** Pair i joins the i-th lowest and the i-th highest key. */
  lemma PairedBySortedKeys(entries: seq<Pairing.Entry>)
    ensures var s := SortBy(entries, Pairing.EntryKey);
            && |Pairing.Paired(entries)| == |entries| / 2 + |entries| % 2
            && forall i :: 0 <= i < |entries| / 2 ==>
                 Pairing.Paired(entries)[i] == [s[i].id, s[|s| - 1 - i].id] && s[i].key <= s[|s| - 1 - i].key
  {
    var s := SortBy(entries, Pairing.EntryKey);
    Pairing.PairOffShape(s);
    forall i | 0 <= i < |entries| / 2 ensures s[i].key <= s[|s| - 1 - i].key {
      assert Pairing.EntryKey(s[i]) <= Pairing.EntryKey(s[|s| - 1 - i]);
    }
  }

  /** Handed the full player data instead, the carousel pairs by handicap:
      pair i joins the i-th lowest and the i-th highest handicap. */
  lemma CorrectedPairsByHandicap(round: Round, activeIdx: nat, playerData: seq<PlayerData>)
    requires Pairing.PairsByHandicap(round) && round.teams == []
    ensures var entries := Pairing.AllEntries(playerData, true, activeIdx);
            var s := SortBy(entries, Pairing.EntryKey);
            var teams := RoundInfo.GeneratedTeams(round, activeIdx, playerData, None);
            && |entries| == |playerData|
            && (forall k :: 0 <= k < |playerData| ==> entries[k] == Pairing.Entry(playerData[k].id, playerData[k].handicap.GetOr(0)))
            && |teams| == |playerData| / 2 + |playerData| % 2
            && (forall i :: 0 <= i < |playerData| / 2 ==>
                 teams[i] == [s[i].id, s[|s| - 1 - i].id] && s[i].key <= s[|s| - 1 - i].key)
  {
    HandicapEntries(playerData, activeIdx);
    PairedBySortedKeys(Pairing.AllEntries(playerData, true, activeIdx));
    TeamsArePaired(round, activeIdx, playerData);
  }

  /** Players 1, 2, 3, 4 with handicaps 20, 5, 10, 15. */
  function ExamplePlayers(): (r: seq<PlayerData>)
    ensures |r| == 4 && PlayerIds(r) == [1, 2, 3, 4]
  {
    [PlayerData(1, "A", Some(20), [], []), PlayerData(2, "B", Some(5), [], []),
     PlayerData(3, "C", Some(10), [], []), PlayerData(4, "D", Some(15), [], [])]
  }

  /** As written the first pair of the example is players 1 and 4
      (handicaps 20 and 15). */
  lemma AsWrittenHandicapExample(round: Round, activeIdx: nat)
    requires Pairing.PairsByHandicap(round) && round.teams == []
    ensures RoundInfo.GeneratedTeams(round, activeIdx, PlayerObjects([1, 2, 3, 4], ExamplePlayers(), 1), None)[0] == [1, 4]
  {
    AsWrittenPairsByListPosition(round, activeIdx, ExamplePlayers(), 1);
  }

  /** Paired by handicap, player 2 (handicap 5, the lowest) leads the
      example's first pair. */
  lemma CorrectedHandicapExample(round: Round, activeIdx: nat)
    requires Pairing.PairsByHandicap(round) && round.teams == []
    ensures RoundInfo.GeneratedTeams(round, activeIdx, ExamplePlayers(), None)[0][0] == 2
  {
    var data := ExamplePlayers();
    var entries := Pairing.AllEntries(data, true, activeIdx);
    var s := SortBy(entries, Pairing.EntryKey);
    CorrectedPairsByHandicap(round, activeIdx, data);
    assert RoundInfo.GeneratedTeams(round, activeIdx, data, None)[0] == [s[0].id, s[3].id];
    assert entries[0] == Pairing.Entry(1, 20) && entries[1] == Pairing.Entry(2, 5);
    assert entries[2] == Pairing.Entry(3, 10) && entries[3] == Pairing.Entry(4, 15);
    LowestKeyFirst(entries, s);
  }

  /** Sorting the example's entries puts handicap 5 first. */
  lemma LowestKeyFirst(entries: seq<Pairing.Entry>, s: seq<Pairing.Entry>)
    requires |entries| == 4
    requires entries[0] == Pairing.Entry(1, 20) && entries[1] == Pairing.Entry(2, 5)
    requires entries[2] == Pairing.Entry(3, 10) && entries[3] == Pairing.Entry(4, 15)
    requires s == SortBy(entries, Pairing.EntryKey)
    ensures |s| == 4 && s[0] == Pairing.Entry(2, 5)
  {
    var e := Pairing.Entry(2, 5);
    assert e == entries[1];
    forall x | x in entries ensures x == e || x.key > e.key {
      var k :| 0 <= k < 4 && entries[k] == x;
    }
    UniqueLowestFirst(entries, s, e);
  }

  /** An entry whose key is below every other entry's comes first once
      sorted. */
  lemma UniqueLowestFirst(entries: seq<Pairing.Entry>, s: seq<Pairing.Entry>, e: Pairing.Entry)
    requires SortedBy(s, Pairing.EntryKey) && multiset(s) == multiset(entries)
    requires e in entries
    requires forall x :: x in entries ==> x == e || x.key > e.key
    ensures |s| > 0 && s[0] == e
  {
    assert e in multiset(s);
    var j :| 0 <= j < |s| && s[j] == e;
    assert s[0] in multiset(entries);
    if j > 0 {
      assert Pairing.EntryKey(s[0]) <= Pairing.EntryKey(s[j]);
    }
  }
}
