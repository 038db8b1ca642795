/** Scramble pair generation of the score editor: `pairBy` sorts a group
    ascending by a key and pairs the lowest with the highest, moving inwards;
    `generateTeamsForRound` keys players by handicap or by their total of the
    earlier rounds and, when team assignments exist, pairs red and green apart. */
module Pairing {
  import opened Common
  import opened Sorting

  /** A player decorated with the key it is sorted by. */
  datatype Entry = Entry(id: PlayerId, key: int)

  function EntryKey(e: Entry): int {
    e.key
  }

  function Ids(s: seq<Entry>): seq<PlayerId> {
    if s == [] then [] else [s[0].id] + Ids(s[1..])
  }

  lemma {:induction false} IdsAppend(a: seq<Entry>, b: seq<Entry>)
    ensures Ids(a + b) == Ids(a) + Ids(b)
  {
    if a != [] {
      assert (a + b)[1..] == a[1..] + b;
      IdsAppend(a[1..], b);
    } else {
      assert a + b == b;
    }
  }

  lemma {:induction false} IdsAt(s: seq<Entry>)
    ensures |Ids(s)| == |s|
    ensures forall i :: 0 <= i < |s| ==> Ids(s)[i] == s[i].id
  {
    if s != [] {
      IdsAt(s[1..]);
    }
  }

  /** The groups the two-pointer walk produces from an already sorted list:
      first with last, then the next pair inwards, a lone middle player last. */
  function PairOff(s: seq<Entry>): seq<seq<PlayerId>>
    decreases |s|
  {
    if |s| == 0 then []
    else if |s| == 1 then [[s[0].id]]
    else [[s[0].id, s[|s| - 1].id]] + PairOff(s[1..|s| - 1])
  }

  /** What `pairBy(group, key)` returns. */
  function Paired(group: seq<Entry>): seq<seq<PlayerId>> {
    PairOff(SortBy(group, EntryKey))
  }

  /** `pairBy`: sort, then advance `left` and `right` towards each other. */
  method PairBy(group: seq<Entry>) returns (teams: seq<seq<PlayerId>>)
    ensures teams == Paired(group)
  {
    var sorted := SortBy(group, EntryKey);
    teams := PairOffWalk(sorted);
  }

  /** The two-pointer walk of `pairBy` over the sorted list. */
  method PairOffWalk(sorted: seq<Entry>) returns (teams: seq<seq<PlayerId>>)
    ensures teams == PairOff(sorted)
  {
    teams := [];
    var left, right := 0, |sorted| - 1;
    assert sorted[left..right + 1] == sorted;
    while left < right
      invariant 0 <= left <= right + 1 <= |sorted|
      invariant left + right == |sorted| - 1
      invariant teams + PairOff(sorted[left..right + 1]) == PairOff(sorted)
    {
      PairOffOuter(sorted, left, right);
      teams := teams + [[sorted[left].id, sorted[right].id]];
      left, right := left + 1, right - 1;
    }
    if left == right {
      assert sorted[left..right + 1] == [sorted[left]];
      teams := teams + [[sorted[left].id]];
    } else {
      assert sorted[left..right + 1] == [];
    }
  }

  /** One step of the walk: the outer pair of a slice, then its inside. */
  lemma PairOffOuter(s: seq<Entry>, left: nat, right: nat)
    requires left < right < |s|
    ensures PairOff(s[left..right + 1]) == [[s[left].id, s[right].id]] + PairOff(s[left + 1..right])
  {
    var rest := s[left..right + 1];
    var inner := rest[1..|rest| - 1];
    var target := s[left + 1..right];
    assert |inner| == |target|;
    forall k | 0 <= k < |inner| ensures inner[k] == target[k] {
      assert inner[k] == rest[k + 1] == s[left + 1 + k];
    }
    assert inner == target;
  }

  /** Group i pairs the i-th element with the i-th from the end; an odd
      length leaves the middle element alone in the last group. */
  lemma {:induction false} PairOffShape(s: seq<Entry>)
    ensures |PairOff(s)| == |s| / 2 + |s| % 2
    ensures forall i :: 0 <= i < |s| / 2 ==> PairOff(s)[i] == [s[i].id, s[|s| - 1 - i].id]
    ensures |s| % 2 == 1 ==> PairOff(s)[|s| / 2] == [s[|s| / 2].id]
    decreases |s|
  {
    if |s| >= 2 {
      var inner := s[1..|s| - 1];
      PairOffShape(inner);
      var r := PairOff(s);
      assert r == [[s[0].id, s[|s| - 1].id]] + PairOff(inner);
      forall i | 1 <= i < |s| / 2 ensures r[i] == [s[i].id, s[|s| - 1 - i].id] {
        assert r[i] == PairOff(inner)[i - 1];
        assert inner[i - 1] == s[i] && inner[|inner| - 1 - (i - 1)] == s[|s| - 1 - i];
      }
      if |s| % 2 == 1 {
        assert r[|s| / 2] == PairOff(inner)[|inner| / 2];
      }
    }
  }

  /** Coverage: the groups hold exactly the listed ids, none lost or repeated. */
  lemma {:induction false} PairOffCovers(s: seq<Entry>)
    ensures multiset(Flatten(PairOff(s))) == multiset(Ids(s))
    decreases |s|
  {
    if |s| == 1 {
      assert [[s[0].id]][..0] == [];
      assert Flatten([[s[0].id]]) == [s[0].id];
    } else if |s| >= 2 {
      var inner := s[1..|s| - 1];
      FlattenOuterPair(s);
      IdsOuterPair(s);
      PairOffCovers(inner);
      SpliceMultiset(Flatten(PairOff(inner)), Ids(inner), s[0].id, s[|s| - 1].id);
    }
  }

  lemma FlattenOuterPair(s: seq<Entry>)
    requires |s| >= 2
    ensures Flatten(PairOff(s)) == [s[0].id, s[|s| - 1].id] + Flatten(PairOff(s[1..|s| - 1]))
  {
    var a := [s[0].id, s[|s| - 1].id];
    FlattenAppend([a], PairOff(s[1..|s| - 1]));
    assert [a][..0] == [];
  }

  lemma IdsOuterPair(s: seq<Entry>)
    requires |s| >= 2
    ensures Ids(s) == [s[0].id] + Ids(s[1..|s| - 1]) + [s[|s| - 1].id]
  {
    var inner := s[1..|s| - 1];
    var last := s[|s| - 1];
    var rest := inner + [last];
    assert s[1..] == rest;
    assert Ids(s) == [s[0].id] + Ids(rest);
    IdsAppend(inner, [last]);
    assert Ids([last]) == [last.id] by { assert [last][1..] == []; }
    ghost var a, b := [s[0].id], Ids(inner);
    assert a + (b + [last.id]) == a + b + [last.id];
  }

  lemma SpliceMultiset(f: seq<PlayerId>, ids: seq<PlayerId>, x: PlayerId, y: PlayerId)
    requires multiset(f) == multiset(ids)
    ensures multiset([x, y] + f) == multiset([x] + ids + [y])
  {
  }

  /** `pairBy` on n players: floor(n/2) pairs plus one singleton exactly when
      n is odd, every id placed exactly once, and in pair i the first member is
      the i-th smallest key and the second the i-th largest. */
  lemma PairedProperties(group: seq<Entry>)
    ensures |Paired(group)| == |group| / 2 + |group| % 2
    ensures group == [] ==> Paired(group) == []
    ensures forall i :: 0 <= i < |group| / 2 ==> |Paired(group)[i]| == 2
    ensures |group| % 2 == 1 ==> |Paired(group)[|group| / 2]| == 1
    ensures multiset(Flatten(Paired(group))) == multiset(Ids(group))
    ensures forall i :: 0 <= i < |group| / 2 ==>
      var s := SortBy(group, EntryKey);
      Paired(group)[i] == [s[i].id, s[|s| - 1 - i].id] && s[i].key <= s[|s| - 1 - i].key
  {
    var s := SortBy(group, EntryKey);
    var p := PairOff(s);
    assert Paired(group) == p;
    PairOffShape(s);
    PairOffCovers(s);
    IdsMultiset(s, group);
    forall i | 0 <= i < |group| / 2
      ensures |p[i]| == 2
      ensures p[i] == [s[i].id, s[|s| - 1 - i].id] && s[i].key <= s[|s| - 1 - i].key
    {
      assert p[i] == [s[i].id, s[|s| - 1 - i].id];
      assert i < |s| - 1 - i;
    }
    if |group| % 2 == 1 {
      assert p[|s| / 2] == [s[|s| / 2].id];
    }
  }

  lemma PairedCount(group: seq<Entry>)
    ensures |Paired(group)| == GroupCount(|group|)
  {
    PairOffShape(SortBy(group, EntryKey));
  }

  lemma PairedCovers(group: seq<Entry>)
    ensures multiset(Flatten(Paired(group))) == multiset(Ids(group))
  {
    var s := SortBy(group, EntryKey);
    PairOffCovers(s);
    IdsMultiset(s, group);
  }

  /** Ids of permuted entries are a permutation of the ids. */
  lemma {:induction false} IdsMultiset(a: seq<Entry>, b: seq<Entry>)
    requires multiset(a) == multiset(b)
    ensures multiset(Ids(a)) == multiset(Ids(b))
    decreases |a|
  {
    if a == [] {
      assert |b| == |multiset(b)| == 0;
    } else {
      var x := a[0];
      assert x in multiset(b);
      var j :| 0 <= j < |b| && b[j] == x;
      var b' := b[..j] + b[j + 1..];
      RemoveAt(b, j);
      assert a == [x] + a[1..];
      IdsMultiset(a[1..], b');
      IdsRemoveAt(b, j);
    }
  }

  lemma RemoveAt<T>(b: seq<T>, j: nat)
    requires j < |b|
    ensures multiset(b[..j] + b[j + 1..]) == multiset(b) - multiset{b[j]}
  {
    assert b == b[..j] + [b[j]] + b[j + 1..];
  }

  lemma IdsRemoveAt(b: seq<Entry>, j: nat)
    requires j < |b|
    ensures multiset(Ids(b)) == multiset(Ids(b[..j] + b[j + 1..])) + multiset{b[j].id}
  {
    var pre, post := b[..j], b[j + 1..];
    var tail := [b[j]] + post;
    assert b == pre + tail;
    assert tail[1..] == post;
    assert Ids(tail) == [b[j].id] + Ids(post);
    IdsAppend(pre, tail);
    IdsAppend(pre, post);
    assert Ids(b) == Ids(pre) + [b[j].id] + Ids(post);
  }

  /** `s.slice(0, roundIndex).reduce((sum, v) => sum + (v || 0), 0)`. */
  function PriorTotal(scores: seq<int>, roundIndex: nat): int {
    Sum(scores[..Min(roundIndex, |scores|)])
  }

  /** The prior total starts at 0 and grows by exactly the score of each
      earlier round; rounds at or after roundIndex never count. */
  lemma PriorTotalSteps(scores: seq<int>, roundIndex: nat)
    ensures PriorTotal(scores, 0) == 0
    ensures roundIndex < |scores| ==> PriorTotal(scores, roundIndex + 1) == PriorTotal(scores, roundIndex) + scores[roundIndex]
    ensures roundIndex >= |scores| ==> PriorTotal(scores, roundIndex) == Sum(scores)
  {
    if roundIndex < |scores| {
      assert scores[..roundIndex + 1][..roundIndex] == scores[..roundIndex];
    } else {
      assert scores[..|scores|] == scores;
    }
  }

  /** The key `pairBy` reads: `handicap ?? 0` when pairing by handicap,
      otherwise the total of the rounds before roundIndex. */
  function PairingKey(p: PlayerData, byHandicap: bool, roundIndex: nat): int {
    if byHandicap then p.handicap.GetOr(0) else PriorTotal(p.scores, roundIndex)
  }

  /** `(scrambleOptions?.pairing || "position") === "handicap"`; every other
      pairing, "custom" included, falls through to the prior-round total. */
  predicate PairsByHandicap(r: Round) {
    r.scrambleOptions.Some? && r.scrambleOptions.value.pairing == Some(Handicap)
  }

  /** `Object.keys(team_data.assignments).length > 0`. */
  predicate HasAssignments(assignments: Option<map<PlayerId, TeamChoice>>) {
    assignments.Some? && |assignments.value| > 0
  }

  predicate AssignedTo(assignments: map<PlayerId, TeamChoice>, id: PlayerId, team: TeamChoice) {
    id in assignments && assignments[id] == team
  }

  /** All players, keyed, in input order. */
  function AllEntries(players: seq<PlayerData>, byHandicap: bool, roundIndex: nat): seq<Entry> {
    if players == [] then []
    else [Entry(players[0].id, PairingKey(players[0], byHandicap, roundIndex))] + AllEntries(players[1..], byHandicap, roundIndex)
  }

  lemma {:induction false} AllEntriesIds(players: seq<PlayerData>, byHandicap: bool, roundIndex: nat)
    ensures Ids(AllEntries(players, byHandicap, roundIndex)) == PlayerIds(players)
    ensures |AllEntries(players, byHandicap, roundIndex)| == |players|
  {
    if players != [] {
      AllEntriesIds(players[1..], byHandicap, roundIndex);
    }
  }

  /** The players assigned to `team`, keyed, in input order (`red.push` / `green.push`). */
  function TeamEntries(players: seq<PlayerData>, assignments: map<PlayerId, TeamChoice>, team: TeamChoice,
                       byHandicap: bool, roundIndex: nat): seq<Entry>
  {
    if players == [] then []
    else
      var p := players[|players| - 1];
      TeamEntries(players[..|players| - 1], assignments, team, byHandicap, roundIndex)
        + (if AssignedTo(assignments, p.id, team) then [Entry(p.id, PairingKey(p, byHandicap, roundIndex))] else [])
  }

  lemma {:induction false} TeamEntriesAssigned(players: seq<PlayerData>, assignments: map<PlayerId, TeamChoice>,
                                               team: TeamChoice, byHandicap: bool, roundIndex: nat)
    ensures forall e :: e in TeamEntries(players, assignments, team, byHandicap, roundIndex) ==> AssignedTo(assignments, e.id, team)
    ensures multiset(Ids(TeamEntries(players, assignments, team, byHandicap, roundIndex)))
         == multiset(TeamIds(players, assignments, team))
  {
    if players != [] {
      var init := players[..|players| - 1];
      TeamEntriesAssigned(init, assignments, team, byHandicap, roundIndex);
      var p := players[|players| - 1];
      var e := TeamEntries(init, assignments, team, byHandicap, roundIndex);
      var entry := Entry(p.id, PairingKey(p, byHandicap, roundIndex));
      if AssignedTo(assignments, p.id, team) {
        IdsAppend(e, [entry]);
        assert Ids([entry]) == [p.id];
      } else {
        assert e + [] == e;
      }
    }
  }

  /** Ids of the players assigned to `team`, in input order. */
  function TeamIds(players: seq<PlayerData>, assignments: map<PlayerId, TeamChoice>, team: TeamChoice): seq<PlayerId> {
    if players == [] then []
    else
      var p := players[|players| - 1];
      TeamIds(players[..|players| - 1], assignments, team) + (if AssignedTo(assignments, p.id, team) then [p.id] else [])
  }

  /** What `generateTeamsForRound(round, roundIndex, players, tournament)` returns. */
  function GenerateTeams(round: Round, roundIndex: nat, players: seq<PlayerData>,
                         assignments: Option<map<PlayerId, TeamChoice>>): seq<seq<PlayerId>>
  {
    var byHandicap := PairsByHandicap(round);
    if HasAssignments(assignments) then
      Paired(TeamEntries(players, assignments.value, Red, byHandicap, roundIndex))
        + Paired(TeamEntries(players, assignments.value, Green, byHandicap, roundIndex))
    else
      Paired(AllEntries(players, byHandicap, roundIndex))
  }

  /** `generateTeamsForRound`: one pass over the players pushing into `red`
      and `green`, then `pairBy` on each. */
  method GenerateTeamsForRound(round: Round, roundIndex: nat, players: seq<PlayerData>,
                               assignments: Option<map<PlayerId, TeamChoice>>)
    returns (grouped: seq<seq<PlayerId>>)
    ensures grouped == GenerateTeams(round, roundIndex, players, assignments)
  {
    var byHandicap := PairsByHandicap(round);
    if HasAssignments(assignments) {
      var asg := assignments.value;
      var red, green := [], [];
      for i := 0 to |players|
        invariant red == TeamEntries(players[..i], asg, Red, byHandicap, roundIndex)
        invariant green == TeamEntries(players[..i], asg, Green, byHandicap, roundIndex)
      {
        var p := players[i];
        assert players[..i + 1][..i] == players[..i];
        var entry := Entry(p.id, PairingKey(p, byHandicap, roundIndex));
        var team := if p.id in asg then asg[p.id] else NoTeam;
        if team == Red {
          red := red + [entry];
        } else if team == Green {
          green := green + [entry];
        }
      }
      assert players[..|players|] == players;
      var redTeams := PairBy(red);
      var greenTeams := PairBy(green);
      grouped := redTeams + greenTeams;
    } else {
      var withTotals := AllEntries(players, byHandicap, roundIndex);
      grouped := PairBy(withTotals);
    }
  }

  predicate AllOn(group: seq<PlayerId>, assignments: map<PlayerId, TeamChoice>, team: TeamChoice) {
    forall id :: id in group ==> AssignedTo(assignments, id, team)
  }

  function GroupCount(n: nat): nat {
    n / 2 + n % 2
  }

  /** With team assignments: the first groups are all red, the rest all green,
      so no group mixes the teams; every red or green player is placed exactly
      once and players on neither team are left out. */
  lemma TeamModeSeparatesTeams(round: Round, roundIndex: nat, players: seq<PlayerData>,
                               assignments: Option<map<PlayerId, TeamChoice>>)
    requires HasAssignments(assignments)
    ensures var teams := GenerateTeams(round, roundIndex, players, assignments);
            var asg := assignments.value;
            var reds := GroupCount(|TeamIds(players, asg, Red)|);
            && reds <= |teams|
            && (forall i :: 0 <= i < reds ==> AllOn(teams[i], asg, Red))
            && (forall i :: reds <= i < |teams| ==> AllOn(teams[i], asg, Green))
            && multiset(Flatten(teams)) == multiset(TeamIds(players, asg, Red)) + multiset(TeamIds(players, asg, Green))
            && (forall id :: id in Flatten(teams) ==> AssignedTo(asg, id, Red) || AssignedTo(asg, id, Green))
  {
    var asg := assignments.value;
    var byH := PairsByHandicap(round);
    var red := TeamEntries(players, asg, Red, byH, roundIndex);
    var green := TeamEntries(players, asg, Green, byH, roundIndex);
    var teams := Paired(red) + Paired(green);
    assert GenerateTeams(round, roundIndex, players, assignments) == teams;
    TeamEntriesAssigned(players, asg, Red, byH, roundIndex);
    TeamEntriesAssigned(players, asg, Green, byH, roundIndex);
    PairedCount(red);
    PairedCovers(red);
    PairedCovers(green);
    PairedOnTeam(red, asg, Red);
    PairedOnTeam(green, asg, Green);
    ConcatGroups(Paired(red), Paired(green), asg);
    var redIds := TeamIds(players, asg, Red);
    IdsAt(red);
    assert |red| == |Ids(red)| == |multiset(Ids(red))| == |multiset(redIds)| == |redIds|;
    forall id | id in Flatten(teams) ensures AssignedTo(asg, id, Red) || AssignedTo(asg, id, Green) {
      assert id in multiset(Flatten(teams));
      if id in multiset(Ids(red)) {
        IdsMember(red, id);
      } else {
        IdsMember(green, id);
      }
    }
  }

  /** Red groups followed by green groups: each group stays within its team
      and together they hold the ids of both. */
  lemma ConcatGroups(reds: seq<seq<PlayerId>>, greens: seq<seq<PlayerId>>, asg: map<PlayerId, TeamChoice>)
    requires forall i :: 0 <= i < |reds| ==> AllOn(reds[i], asg, Red)
    requires forall i :: 0 <= i < |greens| ==> AllOn(greens[i], asg, Green)
    ensures forall i :: 0 <= i < |reds| ==> AllOn((reds + greens)[i], asg, Red)
    ensures forall i :: |reds| <= i < |reds + greens| ==> AllOn((reds + greens)[i], asg, Green)
    ensures multiset(Flatten(reds + greens)) == multiset(Flatten(reds)) + multiset(Flatten(greens))
  {
    FlattenAppend(reds, greens);
  }

  /** Every id in a group built from entries of one team belongs to that team. */
  lemma PairedOnTeam(entries: seq<Entry>, asg: map<PlayerId, TeamChoice>, team: TeamChoice)
    requires forall e :: e in entries ==> AssignedTo(asg, e.id, team)
    ensures forall i :: 0 <= i < |Paired(entries)| ==> AllOn(Paired(entries)[i], asg, team)
  {
    var teams := Paired(entries);
    PairedCovers(entries);
    forall i, id | 0 <= i < |teams| && id in teams[i] ensures AssignedTo(asg, id, team) {
      FlattenHasMembers(teams, i, id);
      assert id in multiset(Flatten(teams));
      assert id in multiset(Ids(entries));
      IdsMember(entries, id);
    }
  }

  lemma {:induction false} IdsMember(s: seq<Entry>, id: PlayerId)
    requires id in Ids(s)
    ensures exists e :: e in s && e.id == id
  {
    if s[0].id != id {
      IdsMember(s[1..], id);
      var e :| e in s[1..] && e.id == id;
      assert e in s;
    }
  }

  /** Without assignments every player is placed exactly once, in
      floor(n/2) pairs and at most one singleton. */
  lemma NoTeamModeCoversAll(round: Round, roundIndex: nat, players: seq<PlayerData>,
                            assignments: Option<map<PlayerId, TeamChoice>>)
    requires !HasAssignments(assignments)
    ensures var teams := GenerateTeams(round, roundIndex, players, assignments);
            && |teams| == GroupCount(|players|)
            && multiset(Flatten(teams)) == multiset(PlayerIds(players))
  {
    var all := AllEntries(players, PairsByHandicap(round), roundIndex);
    assert GenerateTeams(round, roundIndex, players, assignments) == Paired(all);
    AllEntriesIds(players, PairsByHandicap(round), roundIndex);
    PairedCount(all);
    PairedCovers(all);
  }

  /** A round needs pairs on mount when it is scramble and has none stored. */
  predicate NeedsGeneration(r: Round) {
    IsScramble(r) && |r.teams| == 0
  }

  /** Round i after the mount effect: generated pairs when it needed them. */
  function Filled(r: Round, i: nat, players: seq<PlayerData>, assignments: Option<map<PlayerId, TeamChoice>>): Round {
    if NeedsGeneration(r) then r.(teams := GenerateTeams(r, i, players, assignments)) else r
  }

  lemma FilledCases(r: Round, i: nat, players: seq<PlayerData>, assignments: Option<map<PlayerId, TeamChoice>>)
    ensures NeedsGeneration(r) ==> Filled(r, i, players, assignments) == r.(teams := GenerateTeams(r, i, players, assignments))
    ensures !NeedsGeneration(r) ==> Filled(r, i, players, assignments) == r
  {
  }

  /** The score editor's mount effect: fill the teams of every scramble round
      that has none, leave every other round as it is; `replaced` says whether
      any round was filled (and so whether the tournament is replaced). */
  method FillMissingTeams(rounds: seq<Round>, players: seq<PlayerData>,
                          assignments: Option<map<PlayerId, TeamChoice>>)
    returns (updated: seq<Round>, replaced: bool)
    ensures |updated| == |rounds|
    ensures forall i :: 0 <= i < |rounds| ==> updated[i] == Filled(rounds[i], i, players, assignments)
    ensures replaced <==> exists i :: 0 <= i < |rounds| && NeedsGeneration(rounds[i])
  {
    updated := rounds;
    replaced := false;
    for idx := 0 to |rounds|
      invariant |updated| == |rounds|
      invariant forall i :: 0 <= i < idx ==> updated[i] == Filled(rounds[i], i, players, assignments)
      invariant forall i :: idx <= i < |rounds| ==> updated[i] == rounds[i]
      invariant replaced <==> exists i :: 0 <= i < idx && NeedsGeneration(rounds[i])
    {
      var round := rounds[idx];
      FilledCases(round, idx, players, assignments);
      if NeedsGeneration(round) {
        var generated := GenerateTeamsForRound(round, idx, players, assignments);
        updated := updated[idx := round.(teams := generated)];
        replaced := true;
      }
    }
  }

  /** Filling is idempotent: a filled scramble round with at least one player
      has pairs, so a second mount changes nothing. */
  lemma FilledIsStable(r: Round, i: nat, players: seq<PlayerData>, assignments: Option<map<PlayerId, TeamChoice>>)
    requires |players| > 0 && !HasAssignments(assignments)
    ensures !NeedsGeneration(Filled(r, i, players, assignments))
    ensures Filled(Filled(r, i, players, assignments), i, players, assignments) == Filled(r, i, players, assignments)
  {
    if NeedsGeneration(r) {
      NoTeamModeCoversAll(r, i, players, assignments);
    }
  }
}
