/** The score editor's save path: each player's per-round score is read from
    the submitted form (a scramble round reads the team leader's field, a
    handicap round the derived net field), mini-game stars are collected per
    round and game name, and flat records are produced for storage. Also the
    net-score expression of the handicap inputs and the standings snapshot
    taken before saving. */
module ScoreEntry {
  import opened Common
  import opened Sorting

  /** The names of the form inputs: `${id}-${round}`, `netto-${id}-${round}`
      and `mini-${round}-${game}-${id}`. */
  datatype FormKey =
    | ScoreKey(pid: PlayerId, round: nat)
    | NettoKey(pid: PlayerId, round: nat)
    | MiniKey(round: nat, game: string, pid: PlayerId)

  /** The submitted form; a key that is absent stands for a blank input. */
  type FormData = map<FormKey, int>

  /** `val ? parseInt(val, 10) : 0`: a blank input counts as 0. */
  function Field(form: FormData, key: FormKey): int {
    if key in form then form[key] else 0
  }

  /** `teams.find((team) => team.includes(id))`. */
  function FindTeam(teams: seq<seq<PlayerId>>, id: PlayerId): (r: Option<seq<PlayerId>>)
    ensures r.Some? ==> exists k :: 0 <= k < |teams| && teams[k] == r.value && id in r.value
    ensures r.None? <==> forall k :: 0 <= k < |teams| ==> id !in teams[k]
    ensures r.Some? ==> exists k :: 0 <= k < |teams| && teams[k] == r.value
                                  && forall j :: 0 <= j < k ==> id !in teams[j]
  {
    if teams == [] then None
    else if id in teams[0] then Some(teams[0])
    else
      var r := FindTeam(teams[1..], id);
      assert forall k :: 1 <= k < |teams| ==> teams[k] == teams[1..][k - 1];
      r
  }

  /** No id is in two teams. */
  predicate Disjoint(teams: seq<seq<PlayerId>>) {
    forall i, j, x :: 0 <= i < j < |teams| && x in teams[i] ==> x !in teams[j]
  }

  /** The score saved for one player in one round. */
  function EnteredScore(round: Round, roundIdx: nat, id: PlayerId, form: FormData): int {
    if IsScramble(round) then
      match FindTeam(round.teams, id)
      case None => 0
      case Some(team) => Field(form, ScoreKey(team[0], roundIdx))
    else if IsHandicapRound(round) then Field(form, NettoKey(id, roundIdx))
    else Field(form, ScoreKey(id, roundIdx))
  }

  /** In a scramble round every member of a team is saved with the value
      entered under the team's first member; a player in no team gets 0. */
  lemma ScrambleTeamShares(round: Round, roundIdx: nat, form: FormData, k: nat, id: PlayerId)
    requires IsScramble(round) && Disjoint(round.teams)
    requires k < |round.teams| && id in round.teams[k]
    ensures EnteredScore(round, roundIdx, id, form) == Field(form, ScoreKey(round.teams[k][0], roundIdx))
  {
    var found := FindTeam(round.teams, id);
    var j :| 0 <= j < |round.teams| && round.teams[j] == found.value && id in found.value;
    assert j == k;
  }

  lemma ScrambleWithoutTeamIsZero(round: Round, roundIdx: nat, form: FormData, id: PlayerId)
    requires IsScramble(round)
    requires forall k :: 0 <= k < |round.teams| ==> id !in round.teams[k]
    ensures EnteredScore(round, roundIdx, id, form) == 0
  {
  }

  /** The scores of one player, one per round, in round order. */
  function RoundScores(rounds: seq<Round>, id: PlayerId, form: FormData): (r: seq<int>)
    ensures |r| == |rounds|
    ensures forall i :: 0 <= i < |rounds| ==> r[i] == EnteredScore(rounds[i], i, id, form)
  {
    if rounds == [] then []
    else RoundScores(rounds[..|rounds| - 1], id, form) + [EnteredScore(rounds[|rounds| - 1], |rounds| - 1, id, form)]
  }

  datatype ScoreRecord = ScoreRecord(roundId: RoundId, playerId: PlayerId, score: int)

  datatype MiniRecord = MiniRecord(gameId: GameId, roundId: RoundId, playerId: PlayerId, value: int)

  /** The score records pushed for one player, one per round. */
  function ScoreRecordsFor(rounds: seq<Round>, id: PlayerId, form: FormData): (r: seq<ScoreRecord>)
    ensures |r| == |rounds|
    ensures forall i :: 0 <= i < |rounds| ==> r[i] == ScoreRecord(rounds[i].id, id, RoundScores(rounds, id, form)[i])
  {
    if rounds == [] then []
    else
      var n := |rounds| - 1;
      ScoreRecordsFor(rounds[..n], id, form) + [ScoreRecord(rounds[n].id, id, EnteredScore(rounds[n], n, id, form))]
  }

  /** The stars of one round by game name: a later game with a non-blank
      entry overwrites `[name]`. */
  function MiniRow(games: seq<MiniGame>, roundIdx: nat, id: PlayerId, form: FormData): map<string, int> {
    if games == [] then map[]
    else
      var g := games[|games| - 1];
      var row := MiniRow(games[..|games| - 1], roundIdx, id, form);
      var key := MiniKey(roundIdx, g.name, id);
      if key in form then row[g.name := form[key]] else row
  }

  /** A name is in the row exactly when some game has it and its input is
      not blank, and then it holds the value entered for that name. */
  lemma {:induction false} MiniRowSpec(games: seq<MiniGame>, roundIdx: nat, id: PlayerId, form: FormData, name: string)
    ensures name in MiniRow(games, roundIdx, id, form) <==>
            (exists g :: g in games && g.name == name) && MiniKey(roundIdx, name, id) in form
    ensures name in MiniRow(games, roundIdx, id, form) ==>
            MiniRow(games, roundIdx, id, form)[name] == form[MiniKey(roundIdx, name, id)]
  {
    if games != [] {
      var init := games[..|games| - 1];
      var g := games[|games| - 1];
      MiniRowSpec(init, roundIdx, id, form, name);
      assert games == init + [g];
      if g.name != name && (exists h :: h in games && h.name == name) {
        var h :| h in games && h.name == name;
        assert h in init;
      }
    }
  }

  /** `miniGameScores` after saving: with no mini-games the object stays
      empty; otherwise every round gets a row, possibly empty. */
  function MiniScoresFor(games: seq<MiniGame>, nRounds: nat, id: PlayerId, form: FormData): (r: seq<Option<map<string, int>>>)
    ensures |r| == nRounds
    ensures forall i :: 0 <= i < nRounds ==> r[i] == (if games == [] then None else Some(MiniRow(games, i, id, form)))
  {
    seq(nRounds, i requires 0 <= i => if games == [] then None else Some(MiniRow(games, i, id, form)))
  }

  /** The mini-game records pushed for one game and one player: one per round
      with a non-blank entry, in round order. */
  function GameRecords(g: MiniGame, rounds: seq<Round>, id: PlayerId, form: FormData): seq<MiniRecord> {
    if rounds == [] then []
    else
      var n := |rounds| - 1;
      var key := MiniKey(n, g.name, id);
      GameRecords(g, rounds[..n], id, form) + (if key in form then [MiniRecord(g.id, rounds[n].id, id, form[key])] else [])
  }

  /** All mini-game records of one player: game by game, each in round order. */
  function MiniRecordsFor(games: seq<MiniGame>, rounds: seq<Round>, id: PlayerId, form: FormData): seq<MiniRecord> {
    if games == [] then []
    else MiniRecordsFor(games[..|games| - 1], rounds, id, form) + GameRecords(games[|games| - 1], rounds, id, form)
  }

  /** Every mini-game record carries the value the saved row holds for that
      game's name in that round. */
  lemma {:induction false} GameRecordsMatchRows(games: seq<MiniGame>, gi: nat, rounds: seq<Round>, id: PlayerId, form: FormData,
                                                rec: MiniRecord)
    requires gi < |games| && rec in GameRecords(games[gi], rounds, id, form)
    ensures rec.gameId == games[gi].id && rec.playerId == id
    ensures exists i :: 0 <= i < |rounds| && rounds[i].id == rec.roundId
                     && games[gi].name in MiniRow(games, i, id, form)
                     && MiniRow(games, i, id, form)[games[gi].name] == rec.value
  {
    var g := games[gi];
    var n := |rounds| - 1;
    var key := MiniKey(n, g.name, id);
    if rec in GameRecords(g, rounds[..n], id, form) {
      GameRecordsMatchRows(games, gi, rounds[..n], id, form, rec);
      var i :| 0 <= i < |rounds[..n]| && rounds[..n][i].id == rec.roundId
               && g.name in MiniRow(games, i, id, form) && MiniRow(games, i, id, form)[g.name] == rec.value;
      assert rounds[i].id == rec.roundId;
    } else {
      assert key in form && rec == MiniRecord(g.id, rounds[n].id, id, form[key]);
      MiniRowSpec(games, n, id, form, g.name);
      assert games[gi] in games;
    }
  }

  /** A player as saved: the scores and mini-game rows replaced, the rest kept. */
  function SavedPlayer(p: PlayerData, rounds: seq<Round>, games: seq<MiniGame>, form: FormData): PlayerData {
    p.(scores := RoundScores(rounds, p.id, form), miniGameScores := MiniScoresFor(games, |rounds|, p.id, form))
  }

  function SavedPlayers(players: seq<PlayerData>, rounds: seq<Round>, games: seq<MiniGame>, form: FormData): (r: seq<PlayerData>)
    ensures |r| == |players|
    ensures forall k :: 0 <= k < |players| ==> r[k] == SavedPlayer(players[k], rounds, games, form)
  {
    if players == [] then []
    else
      var n := |players| - 1;
      SavedPlayers(players[..n], rounds, games, form) + [SavedPlayer(players[n], rounds, games, form)]
  }

  function AllScoreRecords(players: seq<PlayerData>, rounds: seq<Round>, form: FormData): seq<ScoreRecord> {
    if players == [] then []
    else
      var n := |players| - 1;
      AllScoreRecords(players[..n], rounds, form) + ScoreRecordsFor(rounds, players[n].id, form)
  }

  function AllMiniRecords(players: seq<PlayerData>, rounds: seq<Round>, games: seq<MiniGame>, form: FormData): seq<MiniRecord> {
    if players == [] then []
    else
      var n := |players| - 1;
      AllMiniRecords(players[..n], rounds, games, form) + MiniRecordsFor(games, rounds, players[n].id, form)
  }

  lemma MulSucc(n: nat, m: nat)
    ensures (n + 1) * m == n * m + m
  {
  }

  /** One score record for every player and round, with nothing left out. */
  lemma {:induction false} AllScoreRecordsCount(players: seq<PlayerData>, rounds: seq<Round>, form: FormData)
    ensures |AllScoreRecords(players, rounds, form)| == |players| * |rounds|
  {
    if players != [] {
      var n := |players| - 1;
      var m := |rounds|;
      var init := AllScoreRecords(players[..n], rounds, form);
      var own := ScoreRecordsFor(rounds, players[n].id, form);
      AllScoreRecordsCount(players[..n], rounds, form);
      assert AllScoreRecords(players, rounds, form) == init + own;
      MulSucc(n, m);
    }
  }

  /** The scores loop of one player: one value and one record per round. */
  method ScoresOfPlayer(rounds: seq<Round>, id: PlayerId, form: FormData)
    returns (scores: seq<int>, records: seq<ScoreRecord>)
    ensures scores == RoundScores(rounds, id, form)
    ensures records == ScoreRecordsFor(rounds, id, form)
  {
    scores, records := [], [];
    for i := 0 to |rounds|
      invariant scores == RoundScores(rounds[..i], id, form)
      invariant records == ScoreRecordsFor(rounds[..i], id, form)
    {
      assert rounds[..i + 1][..i] == rounds[..i];
      var round := rounds[i];
      var val := 0;
      if IsScramble(round) {
        var team := FindTeam(round.teams, id);
        if team.Some? {
          val := Field(form, ScoreKey(team.value[0], i));
        }
      } else if IsHandicapRound(round) {
        val := Field(form, NettoKey(id, i));
      } else {
        val := Field(form, ScoreKey(id, i));
      }
      records := records + [ScoreRecord(round.id, id, val)];
      scores := scores + [val];
    }
    assert rounds[..|rounds|] == rounds;
  }

  /** The nested mini-game loops of one player: games outside, rounds inside;
      the row of a round is created the first time it is visited. */
  method MiniScoresOfPlayer(games: seq<MiniGame>, rounds: seq<Round>, id: PlayerId, form: FormData)
    returns (rows: seq<Option<map<string, int>>>, records: seq<MiniRecord>)
    ensures rows == MiniScoresFor(games, |rounds|, id, form)
    ensures records == MiniRecordsFor(games, rounds, id, form)
  {
    rows := seq(|rounds|, _ => None);
    records := [];
    for gi := 0 to |games|
      invariant |rows| == |rounds|
      invariant forall r :: 0 <= r < |rounds| ==> rows[r] == (if gi == 0 then None else Some(MiniRow(games[..gi], r, id, form)))
      invariant records == MiniRecordsFor(games[..gi], rounds, id, form)
    {
      var g := games[gi];
      assert games[..gi + 1][..gi] == games[..gi];
      ghost var before := records;
      for ri := 0 to |rounds|
        invariant |rows| == |rounds|
        invariant forall r :: 0 <= r < ri ==> rows[r] == Some(MiniRow(games[..gi + 1], r, id, form))
        invariant forall r :: ri <= r < |rounds| ==> rows[r] == (if gi == 0 then None else Some(MiniRow(games[..gi], r, id, form)))
        invariant records == before + GameRecords(g, rounds[..ri], id, form)
      {
        assert rounds[..ri + 1][..ri] == rounds[..ri];
        var key := MiniKey(ri, g.name, id);
        if rows[ri].None? {
          rows := rows[ri := Some(map[])];
        }
        if key in form {
          rows := rows[ri := Some(rows[ri].value[g.name := form[key]])];
          records := records + [MiniRecord(g.id, rounds[ri].id, id, form[key])];
        }
      }
      assert rounds[..|rounds|] == rounds;
    }
    assert games[..|games|] == games;
  }

  /** One more player saved: each result grows by that player's part. */
  lemma SaveStep(players: seq<PlayerData>, k: nat, rounds: seq<Round>, games: seq<MiniGame>, form: FormData)
    requires k < |players|
    ensures SavedPlayers(players[..k + 1], rounds, games, form)
         == SavedPlayers(players[..k], rounds, games, form) + [SavedPlayer(players[k], rounds, games, form)]
    ensures AllScoreRecords(players[..k + 1], rounds, form)
         == AllScoreRecords(players[..k], rounds, form) + ScoreRecordsFor(rounds, players[k].id, form)
    ensures AllMiniRecords(players[..k + 1], rounds, games, form)
         == AllMiniRecords(players[..k], rounds, games, form) + MiniRecordsFor(games, rounds, players[k].id, form)
  {
    var next := players[..k + 1];
    assert next[..k] == players[..k];
    assert next[k] == players[k];
  }

  /** `handleSave` without the storage calls: the standings snapshot taken
      before saving, the updated players and the flat records. */
  method HandleSave(players: seq<PlayerData>, rounds: seq<Round>, games: seq<MiniGame>, form: FormData)
    returns (prevStandings: seq<PlayerId>, updated: seq<PlayerData>,
             scoreRecords: seq<ScoreRecord>, miniRecords: seq<MiniRecord>)
    ensures prevStandings == StandingsOrder(players)
    ensures updated == SavedPlayers(players, rounds, games, form)
    ensures scoreRecords == AllScoreRecords(players, rounds, form)
    ensures miniRecords == AllMiniRecords(players, rounds, games, form)
  {
    prevStandings := StandingsOrder(players);
    updated, scoreRecords, miniRecords := [], [], [];
    for k := 0 to |players|
      invariant updated == SavedPlayers(players[..k], rounds, games, form)
      invariant scoreRecords == AllScoreRecords(players[..k], rounds, form)
      invariant miniRecords == AllMiniRecords(players[..k], rounds, games, form)
    {
      var p := players[k];
      var scores, recs := ScoresOfPlayer(rounds, p.id, form);
      var rows, minis := MiniScoresOfPlayer(games, rounds, p.id, form);
      SaveStep(players, k, rounds, games, form);
      scoreRecords := scoreRecords + recs;
      miniRecords := miniRecords + minis;
      updated := updated + [p.(scores := scores, miniGameScores := rows)];
    }
    assert players[..|players|] == players;
  }

  /** `scores.reduce((sum, val) => sum + (val || 0), 0)`. */
  function RawTotal(p: PlayerData): int {
    Sum(p.scores)
  }

  /** The standings snapshot: ids sorted ascending by raw total, stable on ties. */
  function StandingsOrder(players: seq<PlayerData>): seq<PlayerId> {
    PlayerIds(SortBy(players, RawTotal))
  }

  predicate DistinctIds(players: seq<PlayerData>) {
    forall i, j :: 0 <= i < j < |players| ==> players[i].id != players[j].id
  }

  /** The total of the player with a given id (0 when there is none). */
  function TotalOf(players: seq<PlayerData>, id: PlayerId): int {
    match FindPlayer(players, id)
    case None => 0
    case Some(p) => RawTotal(p)
  }

  /** The snapshot lists every player's id exactly once, and along it the
      players' raw totals never decrease. */
  lemma StandingsOrderProperties(players: seq<PlayerData>)
    requires DistinctIds(players)
    ensures multiset(StandingsOrder(players)) == multiset(PlayerIds(players))
    ensures forall i, j :: 0 <= i < j < |players| ==>
      TotalOf(players, StandingsOrder(players)[i]) <= TotalOf(players, StandingsOrder(players)[j])
  {
    var s := SortBy(players, RawTotal);
    var r := PlayerIds(s);
    IdsPermuted(players);
    assert DistinctIds(s) by {
      forall i, j | 0 <= i < j < |s| ensures s[i].id != s[j].id {
        DistinctSurvivesPermutation(players, s, i, j);
      }
    }
    forall i | 0 <= i < |s| ensures TotalOf(players, r[i]) == RawTotal(s[i]) {
      assert s[i] in multiset(players);
      var k :| 0 <= k < |players| && players[k] == s[i];
      FindPlayerUnique(players, k);
    }
  }

  /** Two positions of a permutation of distinct-id players hold distinct ids. */
  lemma DistinctSurvivesPermutation(players: seq<PlayerData>, s: seq<PlayerData>, i: nat, j: nat)
    requires DistinctIds(players) && multiset(s) == multiset(players)
    requires i < j < |s|
    ensures s[i].id != s[j].id
  {
    if s[i].id == s[j].id {
      assert s[i] in multiset(players) && s[j] in multiset(players);
      var a :| 0 <= a < |players| && players[a] == s[i];
      var b :| 0 <= b < |players| && players[b] == s[j];
      if a == b {
        assert s[i] == s[j];
        assert s == s[..i] + [s[i]] + s[i + 1..j] + [s[j]] + s[j + 1..];
        assert multiset(s)[s[i]] >= 2;
        MultiplicityOne(players, a);
      }
    }
  }

  /** In a list of distinct-id players every player occurs once. */
  lemma {:induction false} MultiplicityOne(players: seq<PlayerData>, a: nat)
    requires DistinctIds(players) && a < |players|
    ensures multiset(players)[players[a]] == 1
  {
    if players != [] {
      var x := players[a];
      assert players == [players[0]] + players[1..];
      if a == 0 {
        assert forall q :: q in players[1..] ==> q.id != x.id;
        assert x !in players[1..];
      } else {
        assert players[0].id != x.id;
        MultiplicityOne(players[1..], a - 1);
      }
    }
  }

  lemma PlayerIdsCons(y: PlayerData, t: seq<PlayerData>)
    ensures PlayerIds([y] + t) == [y.id] + PlayerIds(t)
  {
    assert ([y] + t)[1..] == t;
  }

  /** Inserting a player adds exactly that player's id. */
  lemma {:induction false} IdsOfInsert(x: PlayerData, s: seq<PlayerData>)
    ensures multiset(PlayerIds(Insert(x, s, RawTotal))) == multiset{x.id} + multiset(PlayerIds(s))
  {
    if s == [] || RawTotal(x) <= RawTotal(s[0]) {
      PlayerIdsCons(x, s);
    } else {
      var y, t := s[0], s[1..];
      var rest := Insert(x, t, RawTotal);
      assert Insert(x, s, RawTotal) == [y] + rest;
      assert s == [y] + t;
      IdsOfInsert(x, t);
      IdsConsStep(x, y, t, rest);
    }
  }

  lemma IdsConsStep(x: PlayerData, y: PlayerData, t: seq<PlayerData>, rest: seq<PlayerData>)
    requires multiset(PlayerIds(rest)) == multiset{x.id} + multiset(PlayerIds(t))
    ensures multiset(PlayerIds([y] + rest)) == multiset{x.id} + multiset(PlayerIds([y] + t))
  {
    PlayerIdsCons(y, rest);
    PlayerIdsCons(y, t);
    var mt := multiset(PlayerIds(t));
    calc {
      multiset(PlayerIds([y] + rest));
      multiset([y.id] + PlayerIds(rest));
      multiset{y.id} + multiset(PlayerIds(rest));
      multiset{y.id} + (multiset{x.id} + mt);
      multiset{x.id} + (multiset{y.id} + mt);
      multiset{x.id} + multiset([y.id] + PlayerIds(t));
    }
  }

  lemma SortedIdsStep(y: PlayerData, t: seq<PlayerData>, sortedTail: seq<PlayerData>, ins: seq<PlayerData>)
    requires multiset(PlayerIds(sortedTail)) == multiset(PlayerIds(t))
    requires multiset(PlayerIds(ins)) == multiset{y.id} + multiset(PlayerIds(sortedTail))
    ensures multiset(PlayerIds(ins)) == multiset(PlayerIds([y] + t))
  {
    PlayerIdsCons(y, t);
    assert multiset([y.id] + PlayerIds(t)) == multiset{y.id} + multiset(PlayerIds(t));
  }

  /** Sorting the players permutes their ids. */
  lemma {:induction false} IdsPermuted(a: seq<PlayerData>)
    ensures multiset(PlayerIds(SortBy(a, RawTotal))) == multiset(PlayerIds(a))
  {
    if a != [] {
      var y, t := a[0], a[1..];
      var sortedTail := SortBy(t, RawTotal);
      var ins := Insert(y, sortedTail, RawTotal);
      assert SortBy(a, RawTotal) == ins;
      assert a == [y] + t;
      IdsPermuted(t);
      IdsOfInsert(y, sortedTail);
      SortedIdsStep(y, t, sortedTail, ins);
    }
  }

  /** The state a gross input can be in: never filled, cleared by the user
      (the empty string), or holding a number. */
  datatype Gross = Unset | Cleared | Entered(strokes: int)

  /** The derived net field: `max(0, brutto - hcp)` when both are numbers,
      blank otherwise. A cleared gross reads as the number 0. */
  function Net(gross: Gross, handicap: Option<int>): (r: Option<int>)
    ensures r.Some? <==> !gross.Unset? && handicap.Some?
    ensures r.Some? ==> r.value >= 0
    ensures r.Some? && gross.Entered? ==>
      r.value >= gross.strokes - handicap.value && (r.value == 0 || r.value == gross.strokes - handicap.value)
  {
    match (gross, handicap)
    case (Unset, _) => None
    case (_, None) => None
    case (Cleared, Some(h)) => Some(if 0 >= -h then 0 else -h)
    case (Entered(b), Some(h)) => Some(if 0 >= b - h then 0 else b - h)
  }

  /** A larger handicap never gives a larger net score. */
  lemma NetAntitone(gross: Gross, h1: int, h2: int)
    requires !gross.Unset? && h1 <= h2
    ensures Net(gross, Some(h2)).value <= Net(gross, Some(h1)).value
  {
  }

  /** The gross value a handicap input starts with: the stored net score plus
      the handicap, when both exist. */
  function InitialGross(p: PlayerData, roundIdx: nat): Gross {
    if roundIdx < |p.scores| && p.handicap.Some? then Entered(p.scores[roundIdx] + p.handicap.value) else Unset
  }

  /** Opening the editor and saving unchanged gives back the stored net score
      whenever it is not negative. */
  lemma NetOfInitialGross(p: PlayerData, roundIdx: nat)
    requires roundIdx < |p.scores| && p.handicap.Some? && p.scores[roundIdx] >= 0
    ensures Net(InitialGross(p, roundIdx), p.handicap) == Some(p.scores[roundIdx])
  {
  }
}
