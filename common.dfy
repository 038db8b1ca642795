/** The tournament snapshot shared by every page: players with their per-round
    score vectors, rounds with their game modes and scramble settings, and
    mini-games. Ids are abstract integers; game-mode labels are an enumeration. */
module Common {

  type PlayerId = int
  type RoundId = int
  type GameId = int
  type TournamentId = int

  datatype Option<T> = None | Some(value: T) {
    /** `x ?? d` and `x || d` on an optional value. */
    function GetOr(default: T): T {
      if Some? then value else default
    }
  }

  /** The five labels offered by the round form, plus the blank "choose a mode" entry. */
  datatype GameMode = Unselected | StrokePlay | HandicapStrokePlay | PointsBogey | Scramble2 | BestBall

  datatype Pairing = Position | Handicap | Custom

  /** The value of a team-assignment drop-down: "" (no team), "red" or "green". */
  datatype TeamChoice = NoTeam | Red | Green

  datatype ScrambleOptions = ScrambleOptions(
    withHandicap: bool,
    pairing: Option<Pairing>,
    lowPct: Option<int>,
    highPct: Option<int>,
    customTeams: map<PlayerId, PlayerId>)

  datatype Round = Round(
    id: RoundId,
    name: string,
    modes: seq<GameMode>,
    scrambleOptions: Option<ScrambleOptions>,
    teams: seq<seq<PlayerId>>)

  /** A player as the tournament page holds it: `scores[i]` is the score of
      round i, `miniGameScores[i]` the stars of round i by game name (None when
      the round has no entry at all). */
  datatype PlayerData = PlayerData(
    id: PlayerId,
    name: string,
    handicap: Option<int>,
    scores: seq<int>,
    miniGameScores: seq<Option<map<string, int>>>)

  datatype MiniGame = MiniGame(id: GameId, name: string, subtract: bool, deductionValue: Option<int>)

  /** `modes[0].toLowerCase().includes("scramble")`: of the offered labels only the scramble one matches. */
  predicate IsScramble(r: Round) {
    |r.modes| > 0 && r.modes[0] == Scramble2
  }

  /** `modes[0].toLowerCase() === "handicap-justerat slagspel"`. */
  predicate IsHandicapRound(r: Round) {
    |r.modes| > 0 && r.modes[0] == HandicapStrokePlay
  }

  /** Some player has a positive numeric score in round i. */
  predicate HasScoresIn(players: seq<PlayerData>, i: int) {
    exists p :: p in players && 0 <= i < |p.scores| && p.scores[i] > 0
  }

  /** `players.find((p) => p.id === id)`: the first player with that id. */
  function FindPlayer(players: seq<PlayerData>, id: PlayerId): (r: Option<PlayerData>)
    ensures r.Some? ==> r.value in players && r.value.id == id
    ensures r.None? <==> forall p :: p in players ==> p.id != id
    ensures r.Some? ==> exists k :: 0 <= k < |players| && players[k] == r.value
                                  && forall j :: 0 <= j < k ==> players[j].id != id
  {
    if players == [] then None
    else if players[0].id == id then Some(players[0])
    else FindPlayer(players[1..], id)
  }

  /** With distinct ids, the player found for an id is the one that has it. */
  lemma {:induction false} FindPlayerUnique(players: seq<PlayerData>, k: nat)
    requires k < |players|
    requires forall i, j :: 0 <= i < j < |players| ==> players[i].id != players[j].id
    ensures FindPlayer(players, players[k].id) == Some(players[k])
  {
    if k > 0 {
      assert players[0].id != players[k].id;
      FindPlayerUnique(players[1..], k - 1);
    }
  }

  /** The players' ids in order (`players.map((p) => p.id)`). */
  function PlayerIds(players: seq<PlayerData>): (r: seq<PlayerId>)
    ensures |r| == |players|
    ensures forall i :: 0 <= i < |players| ==> r[i] == players[i].id
  {
    if players == [] then [] else [players[0].id] + PlayerIds(players[1..])
  }

  /** A player's recorded value for a mini-game in a round, a missing round
      or game as 0. */
  function Stars(mgs: seq<Option<map<string, int>>>, roundIdx: nat, name: string): int {
    if roundIdx < |mgs| && mgs[roundIdx].Some? && name in mgs[roundIdx].value then mgs[roundIdx].value[name] else 0
  }

  function Min(a: int, b: int): int {
    if a <= b then a else b
  }

  /** `s.reduce((sum, v) => sum + (v || 0), 0)`. */
  function Sum(s: seq<int>): int {
    if s == [] then 0 else Sum(s[..|s| - 1]) + s[|s| - 1]
  }

  lemma {:induction false} SumAppend(a: seq<int>, b: seq<int>)
    ensures Sum(a + b) == Sum(a) + Sum(b)
    decreases |b|
  {
    if b == [] {
      assert a + b == a;
    } else {
      var n := |b|;
      assert (a + b)[..|a + b| - 1] == a + b[..n - 1];
      SumAppend(a, b[..n - 1]);
    }
  }

  lemma {:induction false} SumOfZeros(n: nat)
    ensures Sum(seq(n, _ => 0)) == 0
  {
    if n > 0 {
      assert seq(n, _ => 0)[..n - 1] == seq(n - 1, _ => 0);
      SumOfZeros(n - 1);
    }
  }

  /** Concatenation of a sequence of groups, in order. */
  function Flatten<T>(ss: seq<seq<T>>): seq<T> {
    if ss == [] then [] else Flatten(ss[..|ss| - 1]) + ss[|ss| - 1]
  }

  lemma {:induction false} FlattenAppend<T>(a: seq<seq<T>>, b: seq<seq<T>>)
    ensures Flatten(a + b) == Flatten(a) + Flatten(b)
    decreases |b|
  {
    if b == [] {
      assert a + b == a;
    } else {
      var n := |b|;
      assert (a + b)[..|a + b| - 1] == a + b[..n - 1];
      FlattenAppend(a, b[..n - 1]);
    }
  }

  /** Every member of every group is in the flattened sequence. */
  lemma {:induction false} FlattenHasMembers<T>(ss: seq<seq<T>>, i: nat, x: T)
    requires i < |ss| && x in ss[i]
    ensures x in Flatten(ss)
  {
    if i < |ss| - 1 {
      FlattenHasMembers(ss[..|ss| - 1], i, x);
    }
  }

  /** Every member of the flattened sequence comes from some group. */
  lemma {:induction false} FlattenMembersFromGroups<T>(ss: seq<seq<T>>, x: T)
    requires x in Flatten(ss)
    ensures exists i :: 0 <= i < |ss| && x in ss[i]
  {
    if x !in ss[|ss| - 1] {
      FlattenMembersFromGroups(ss[..|ss| - 1], x);
      var i :| 0 <= i < |ss| - 1 && x in ss[..|ss| - 1][i];
      assert x in ss[i];
    }
  }

  /** First index of x in s, or -1 (`Array.prototype.indexOf`). */
  function IndexOf<T(==)>(s: seq<T>, x: T): (r: int)
    ensures -1 <= r < |s|
    ensures r == -1 <==> x !in s
    ensures 0 <= r ==> r < |s| && s[r] == x && x !in s[..r]
  {
    if s == [] then -1
    else if s[0] == x then 0
    else
      var k := IndexOf(s[1..], x);
      if k == -1 then -1
      else (assert s[..k + 1] == [s[0]] + s[1..][..k]; k + 1)
  }
}
