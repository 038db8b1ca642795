/** The new-tournament form: player selection, team assignment, the list of
    round drafts with their game modes and scramble options, the player grid
    and the rows the form saves for rounds, modes and scramble settings. */
module TournamentSetup {
  import opened Common
  import opened Sorting

  /** A round's info text: free text, or the preset text of a game mode. */
  datatype Info = FreeText(text: string) | Preset(mode: GameMode)

  /** A round as the form holds it (`{ name, modes, scrambleOptions, info }`). */
  datatype RoundDraft = RoundDraft(name: string, modes: seq<GameMode>, scrambleOptions: Option<ScrambleOptions>, info: Info)

  /** The draft of a new round. */
  const BlankRound := RoundDraft("", [Unselected], None, FreeText(""))

  // ---------------------------------------------------------------- players

  /** `togglePlayer`: drop the id when selected, otherwise append it. */
  function Toggle(selected: seq<PlayerId>, id: PlayerId): (r: seq<PlayerId>)
    ensures id in selected ==> id !in r && forall x :: x != id ==> (x in r <==> x in selected)
    ensures id !in selected ==> r == selected + [id]
  {
    if id in selected then Without(selected, id) else selected + [id]
  }

  /** `filter((pid) => pid !== id)`. */
  function Without(s: seq<PlayerId>, id: PlayerId): (r: seq<PlayerId>)
    ensures forall x :: x in r <==> x in s && x != id
    ensures id !in s ==> r == s
  {
    if s == [] then []
    else
      assert s == [s[0]] + s[1..];
      (if s[0] == id then [] else [s[0]]) + Without(s[1..], id)
  }

  lemma {:induction false} WithoutMultiset(s: seq<PlayerId>, id: PlayerId)
    ensures multiset(Without(s, id)) == multiset(s)[id := 0]
  {
    if s != [] {
      WithoutMultiset(s[1..], id);
      assert s == [s[0]] + s[1..];
    }
  }

  /** Toggling an id that is not selected and toggling it back restores the
      list exactly; toggling a selected id (once in the list) off and back
      on restores the selection, with that id moved to the end. */
  lemma ToggleTwice(selected: seq<PlayerId>, id: PlayerId)
    ensures id !in selected ==> Toggle(Toggle(selected, id), id) == selected
    ensures id in selected && multiset(selected)[id] == 1 ==>
      Toggle(Toggle(selected, id), id) == Without(selected, id) + [id]
      && multiset(Toggle(Toggle(selected, id), id)) == multiset(selected)
  {
    if id !in selected {
      WithoutAppended(selected, id);
    } else {
      WithoutMultiset(selected, id);
    }
  }

  lemma {:induction false} WithoutAppended(s: seq<PlayerId>, id: PlayerId)
    requires id !in s
    ensures Without(s + [id], id) == s
  {
    if s == [] {
      assert [id][1..] == [];
    } else {
      assert (s + [id])[1..] == s[1..] + [id];
      WithoutAppended(s[1..], id);
      assert s == [s[0]] + s[1..];
    }
  }

  /** `assignTeam`: only the given player's entry changes. */
  function AssignTeam(assignments: map<PlayerId, TeamChoice>, playerId: PlayerId, team: TeamChoice)
    : (r: map<PlayerId, TeamChoice>)
    ensures playerId in r && r[playerId] == team
    ensures r.Keys == assignments.Keys + {playerId}
    ensures forall other :: other != playerId && other in assignments ==> r[other] == assignments[other]
  {
    assignments[playerId := team]
  }

  // ----------------------------------------------------------------- rounds

  function Digit(d: nat): char
    requires d < 10
  {
    "0123456789"[d]
  }

  /** The decimal digits of n. */
  function Decimal(n: nat): (r: string)
    ensures |r| > 0
  {
    if n < 10 then [Digit(n)] else Decimal(n / 10) + [Digit(n % 10)]
  }

  /** The default name `Runda ${i + 1}` of round i. */
  function RoundLabel(i: nat): string {
    "Runda " + Decimal(i + 1)
  }

  /** Round i after `handleRoundsChange`: the old draft with a blank name
      filled in, or a new blank round with its default name. */
  function ResizedRound(rounds: seq<RoundDraft>, i: nat): RoundDraft {
    if i < |rounds| then
      var r := rounds[i];
      r.(name := if r.name == "" then RoundLabel(i) else r.name)
    else BlankRound.(name := RoundLabel(i))
  }

  /** `handleRoundsChange`: a number parsed from the input (None when it is
      not a number). */
  function ResizeRounds(rounds: seq<RoundDraft>, parsed: Option<int>): (r: seq<RoundDraft>)
    ensures parsed.Some? && parsed.value > 0 ==> |r| == parsed.value
    ensures !(parsed.Some? && parsed.value > 0) ==> r == rounds
  {
    if parsed.Some? && parsed.value > 0 then seq(parsed.value, i requires 0 <= i => ResizedRound(rounds, i))
    else rounds
  }

  /** Resizing keeps the modes, scramble options and info of every round
      that stays, and keeps a non-blank name; new rounds get a single blank
      mode, no options, empty info and their default name. */
  lemma ResizeKeepsRounds(rounds: seq<RoundDraft>, n: int, i: nat)
    requires n > 0 && i < n
    ensures var r := ResizeRounds(rounds, Some(n));
            && (i < |rounds| ==>
                 && r[i].modes == rounds[i].modes
                 && r[i].scrambleOptions == rounds[i].scrambleOptions
                 && r[i].info == rounds[i].info
                 && r[i].name == (if rounds[i].name == "" then RoundLabel(i) else rounds[i].name))
            && (i >= |rounds| ==> r[i] == RoundDraft(RoundLabel(i), [Unselected], None, FreeText("")))
  {
  }

  /** The options a round gets when scramble is chosen: handicap pairing for
      the first round, position pairing for the others, no handicap play and
      no weights. */
  function FreshScrambleOptions(index: nat): ScrambleOptions {
    ScrambleOptions(false, Some(if index == 0 then Handicap else Position), None, None, map[])
  }

  /** `modes[which] = value`: writing one past the end appends. */
  function SetMode(modes: seq<GameMode>, which: nat, value: GameMode): (r: seq<GameMode>)
    requires which <= |modes|
    ensures |r| == if which == |modes| then |modes| + 1 else |modes|
    ensures r[which] == value && forall k :: 0 <= k < |modes| && k != which ==> r[k] == modes[k]
  {
    if which == |modes| then modes + [value] else modes[which := value]
  }

  /** The preset text chosen for the first mode, if the mode has one. */
  function PresetFor(value: GameMode): Option<Info> {
    if value == StrokePlay || value == HandicapStrokePlay || value == Scramble2 then Some(Preset(value)) else None
  }

  function WithInfo(r: RoundDraft, value: GameMode, which: nat): (out: RoundDraft)
    ensures out.info == if which == 0 && PresetFor(value).Some? then Preset(value) else r.info
    ensures out.(info := r.info) == r
  {
    if which == 0 && PresetFor(value).Some? then r.(info := Preset(value)) else r
  }

  /** `handleRoundModeChange` as written: the test for scramble looks at
      the modes after the new value was stored, so overwriting the only
      (scramble) mode leaves the scramble options in place. */
  function ModeChangedAsWritten(r: RoundDraft, index: nat, value: GameMode, which: nat): RoundDraft
    requires which <= |r.modes|
  {
    var changed :=
      if value == Scramble2 then r.(modes := [value], scrambleOptions := Some(FreshScrambleOptions(index)))
      else
        var modes := SetMode(r.modes, which, value);
        if Scramble2 in modes then r.(modes := [value], scrambleOptions := None)
        else r.(modes := modes);
    WithInfo(changed, value, which)
  }

  /** The handler as written follows the corrected rule in every case but
      one: leaving scramble by overwriting its only scramble mode. */
  lemma AsWrittenDiffersOnlyLeavingScramble(r: RoundDraft, index: nat, value: GameMode, which: nat)
    requires which <= |r.modes|
    requires !(value != Scramble2 && Scramble2 in r.modes && Scramble2 !in SetMode(r.modes, which, value))
    ensures ModeChangedAsWritten(r, index, value, which) == ModeChanged(r, index, value, which)
  {
    if value != Scramble2 && Scramble2 !in r.modes {
      var m := SetMode(r.modes, which, value);
      assert Scramble2 !in m by {
        forall k | 0 <= k < |m| ensures m[k] != Scramble2 {
          if k != which {
            assert m[k] == r.modes[k];
          }
        }
      }
    }
  }

  /** Switching a scramble round to stroke play keeps its scramble options
      in the code as written. */
  lemma LeavingScrambleKeepsOptions()
    ensures var r := RoundDraft("", [Scramble2], Some(FreshScrambleOptions(0)), Preset(Scramble2));
            var out := ModeChangedAsWritten(r, 0, StrokePlay, 0);
            out.modes == [StrokePlay] && out.scrambleOptions == Some(FreshScrambleOptions(0))
  {
    assert Scramble2 !in [StrokePlay];
  }

  /** `handleRoundModeChange` with the scramble test made on the modes
      before the change, so leaving scramble clears the options. */
  function ModeChanged(r: RoundDraft, index: nat, value: GameMode, which: nat): (out: RoundDraft)
    requires which <= |r.modes|
    ensures value == Scramble2 ==> out.modes == [Scramble2] && out.scrambleOptions == Some(FreshScrambleOptions(index))
    ensures value != Scramble2 && Scramble2 in r.modes ==> out.modes == [value] && out.scrambleOptions == None
    ensures value != Scramble2 && Scramble2 !in r.modes ==>
      out.modes == SetMode(r.modes, which, value) && out.scrambleOptions == r.scrambleOptions
    ensures out.name == r.name
    ensures out.info == if which == 0 && PresetFor(value).Some? then Preset(value) else r.info
  {
    var changed :=
      if value == Scramble2 then r.(modes := [value], scrambleOptions := Some(FreshScrambleOptions(index)))
      else if Scramble2 in r.modes then r.(modes := [value], scrambleOptions := None)
      else r.(modes := SetMode(r.modes, which, value));
    WithInfo(changed, value, which)
  }

  /** After a mode change a round holds scramble options exactly when it is
      a scramble round, provided that held before. */
  lemma ModeChangedKeepsOptionsWithScramble(r: RoundDraft, index: nat, value: GameMode, which: nat)
    requires which <= |r.modes| && which <= 1 && |r.modes| >= 1
    requires r.scrambleOptions.Some? <==> Scramble2 in r.modes
    ensures var out := ModeChanged(r, index, value, which);
            out.scrambleOptions.Some? <==> Scramble2 in out.modes
  {
    var out := ModeChanged(r, index, value, which);
    if value != Scramble2 && Scramble2 !in r.modes {
      var m := SetMode(r.modes, which, value);
      assert Scramble2 !in m by {
        forall k | 0 <= k < |m| ensures m[k] != Scramble2 {
          if k != which {
            assert m[k] == r.modes[k];
          }
        }
      }
    }
  }

  /** One scramble setting picked by a radio button or typed in. */
  datatype OptionChange = SetWithHandicap(on: bool) | SetPairing(pairing: Pairing) | SetLowPct(low: Option<int>) | SetHighPct(high: Option<int>)

  function ApplyOption(o: ScrambleOptions, change: OptionChange): ScrambleOptions {
    match change
    case SetWithHandicap(on) => o.(withHandicap := on)
    case SetPairing(p) => o.(pairing := Some(p))
    case SetLowPct(low) => o.(lowPct := low)
    case SetHighPct(high) => o.(highPct := high)
  }

  /** The first round may not pair by position: no placings exist yet. */
  predicate Rejected(index: nat, change: OptionChange) {
    change == SetPairing(Position) && index == 0
  }

  /** Round 0 never pairs by position. */
  predicate FirstRoundNotByPosition(rounds: seq<RoundDraft>) {
    |rounds| > 0 && rounds[0].scrambleOptions.Some? ==> rounds[0].scrambleOptions.value.pairing != Some(Position)
  }

  /** The round list of the form: the rounds state with the handlers that
      update one round in place. */
  class RoundForm {
    var rounds: seq<RoundDraft>

    /** At least one round, each with a first mode, and round 0 never
        pairing by position. */
    ghost predicate Valid()
      reads this
    {
      && |rounds| > 0
      && (forall i :: 0 <= i < |rounds| ==> |rounds[i].modes| >= 1)
      && FirstRoundNotByPosition(rounds)
    }

    /** `useState([{ name: "", modes: [""], scrambleOptions: null, info: "" }])`. */
    constructor ()
      ensures Valid()
      ensures rounds == [BlankRound]
    {
      rounds := [BlankRound];
    }

    /** `setRounds` with the result of `handleRoundsChange`. */
    method ChangeRoundCount(parsed: Option<int>)
      requires Valid()
      modifies this
      ensures Valid()
      ensures rounds == ResizeRounds(old(rounds), parsed)
    {
      rounds := ResizeRounds(rounds, parsed);
    }

    /** `handleRoundModeChange` as written: store the mode, then replace or
        clear the scramble options (testing the modes after the store), then
        set the preset info for the first mode. */
    method RoundModeChange(index: nat, value: GameMode, which: nat)
      requires Valid() && index < |rounds| && which <= 1
      modifies this
      ensures Valid()
      ensures rounds == old(rounds)[index := ModeChangedAsWritten(old(rounds)[index], index, value, which)]
    {
      var round := rounds[index];
      if value == Scramble2 {
        round := round.(modes := [value]);
        round := round.(scrambleOptions := Some(FreshScrambleOptions(index)));
      } else {
        round := round.(modes := SetMode(round.modes, which, value));
        if Scramble2 in round.modes {
          round := round.(modes := [value]);
          round := round.(scrambleOptions := None);
        }
      }
      if which == 0 {
        if value == StrokePlay {
          round := round.(info := Preset(StrokePlay));
        } else if value == HandicapStrokePlay {
          round := round.(info := Preset(HandicapStrokePlay));
        } else if value == Scramble2 {
          round := round.(info := Preset(Scramble2));
        }
      }
      rounds := rounds[index := round];
    }

    /** `addSecondMode`: append a blank mode unless a non-blank second mode exists. */
    method AddSecondMode(index: nat)
      requires Valid() && index < |rounds|
      modifies this
      ensures Valid()
      ensures var r := old(rounds)[index];
              rounds == old(rounds)[index := if |r.modes| > 1 && r.modes[1] != Unselected then r else r.(modes := r.modes + [Unselected])]
    {
      var round := rounds[index];
      if !(|round.modes| > 1 && round.modes[1] != Unselected) {
        rounds := rounds[index := round.(modes := round.modes + [Unselected])];
      }
    }

    /** `removeSecondMode`: keep only the first mode. */
    method RemoveSecondMode(index: nat)
      requires Valid() && index < |rounds|
      modifies this
      ensures Valid()
      ensures rounds == old(rounds)[index := old(rounds)[index].(modes := [old(rounds)[index].modes[0]])]
    {
      var round := rounds[index];
      rounds := rounds[index := round.(modes := [round.modes[0]])];
    }

    /** `handleScrambleOptionChange`: position pairing on the first round is
        refused and nothing changes; otherwise exactly that option of that
        round is set. */
    method ScrambleOptionChange(index: nat, change: OptionChange) returns (refused: bool)
      requires Valid() && index < |rounds| && rounds[index].scrambleOptions.Some?
      modifies this
      ensures Valid()
      ensures refused <==> Rejected(index, change)
      ensures refused ==> rounds == old(rounds)
      ensures !refused ==> rounds == old(rounds)[index := old(rounds)[index].(scrambleOptions :=
                Some(ApplyOption(old(rounds)[index].scrambleOptions.value, change)))]
    {
      if change.SetPairing? && change.pairing == Position && index == 0 {
        return true;
      }
      var round := rounds[index];
      rounds := rounds[index := round.(scrambleOptions := Some(ApplyOption(round.scrambleOptions.value, change)))];
      refused := false;
    }
  }

  // ----------------------------------------------------------- player grid

  /** `Math.ceil(n / 3)`: the rows of a three-column grid. */
  function GridRows(n: nat): nat {
    (n + 2) / 3
  }

  /** The indices `col * rows + row` below n for the first `cols` columns. */
  function RowCells(n: nat, rows: nat, row: nat, cols: nat): seq<nat> {
    if cols == 0 then []
    else RowCells(n, rows, row, cols - 1) + (if (cols - 1) * rows + row < n then [(cols - 1) * rows + row] else [])
  }

  /** The indices visited in the first `upTo` rows, row by row. */
  function GridOrder(n: nat, rows: nat, upTo: nat): seq<nat> {
    if upTo == 0 then [] else GridOrder(n, rows, upTo - 1) + RowCells(n, rows, upTo - 1, 3)
  }

  /** The sorted players taken at the listed indices (an index past the end
      is skipped). */
  function Pick<T>(sorted: seq<T>, order: seq<nat>): seq<T> {
    if order == [] then []
    else
      var last := order[|order| - 1];
      Pick(sorted, order[..|order| - 1]) + (if last < |sorted| then [sorted[last]] else [])
  }

  predicate NoDuplicates(order: seq<nat>) {
    forall a, b :: 0 <= a < b < |order| ==> order[a] != order[b]
  }

  /** Index i lies in one of the first t rows of column 0, 1 or 2. */
  predicate InFirstRows(i: nat, rows: nat, t: nat) {
    i < t || (rows <= i < rows + t) || (2 * rows <= i < 2 * rows + t)
  }

  lemma RowCellsThree(n: nat, rows: nat, row: nat)
    ensures RowCells(n, rows, row, 3)
         == (if row < n then [row] else []) + (if rows + row < n then [rows + row] else [])
            + (if 2 * rows + row < n then [2 * rows + row] else [])
  {
    assert RowCells(n, rows, row, 1) == (if row < n then [row] else []);
  }

  lemma {:induction false} GridOrderMembers(n: nat, rows: nat, t: nat, i: nat)
    requires t <= rows
    ensures i in GridOrder(n, rows, t) <==> i < n && InFirstRows(i, rows, t)
  {
    if t > 0 {
      GridOrderMembers(n, rows, t - 1, i);
      RowCellsThree(n, rows, t - 1);
    }
  }

  lemma {:induction false} GridOrderNoDuplicates(n: nat, rows: nat, t: nat)
    requires t <= rows
    ensures NoDuplicates(GridOrder(n, rows, t))
  {
    if t > 0 {
      GridOrderNoDuplicates(n, rows, t - 1);
      RowCellsThree(n, rows, t - 1);
      var prefix := GridOrder(n, rows, t - 1);
      var cells := RowCells(n, rows, t - 1, 3);
      forall c | c in cells ensures c !in prefix {
        GridOrderMembers(n, rows, t - 1, c);
      }
      var order := prefix + cells;
      forall a, b | 0 <= a < b < |order| ensures order[a] != order[b] {
        if b >= |prefix| && a < |prefix| {
          assert order[b] in cells;
        }
      }
    }
  }

  /** The grid visits every index of the sorted list exactly once. */
  lemma GridVisitsEachOnce(n: nat)
    ensures var order := GridOrder(n, GridRows(n), GridRows(n));
            && NoDuplicates(order)
            && forall i: nat :: i in order <==> i < n
  {
    var rows := GridRows(n);
    GridOrderNoDuplicates(n, rows, rows);
    forall i: nat ensures i in GridOrder(n, rows, rows) <==> i < n {
      GridOrderMembers(n, rows, rows, i);
    }
  }

  lemma {:induction false} GridOrderBelow(n: nat, rows: nat, t: nat)
    ensures forall k :: 0 <= k < |GridOrder(n, rows, t)| ==> GridOrder(n, rows, t)[k] < n
  {
    if t > 0 {
      GridOrderBelow(n, rows, t - 1);
      RowCellsBelow(n, rows, t - 1, 3);
    }
  }

  lemma {:induction false} RowCellsBelow(n: nat, rows: nat, row: nat, cols: nat)
    ensures forall k :: 0 <= k < |RowCells(n, rows, row, cols)| ==> RowCells(n, rows, row, cols)[k] < n
  {
    if cols > 0 {
      RowCellsBelow(n, rows, row, cols - 1);
    }
  }

  function HandicapKey(p: PlayerData): int {
    p.handicap.GetOr(0)
  }

  /** The player grid: players sorted ascending by handicap, laid out column
      by column in three columns and read back row by row. */
  method TransposedGrid(players: seq<PlayerData>) returns (transposed: seq<PlayerData>)
    ensures var sorted := SortBy(players, HandicapKey);
            transposed == Pick(sorted, GridOrder(|sorted|, GridRows(|sorted|), GridRows(|sorted|)))
  {
    var sorted := SortBy(players, HandicapKey);
    transposed := GridOf(sorted);
  }

  /** The nested row and column loops of the grid. */
  method GridOf<T>(sorted: seq<T>) returns (transposed: seq<T>)
    ensures transposed == Pick(sorted, GridOrder(|sorted|, GridRows(|sorted|), GridRows(|sorted|)))
  {
    var n := |sorted|;
    var numRows := GridRows(n);
    transposed := [];
    for row := 0 to numRows
      invariant transposed == Pick(sorted, GridOrder(n, numRows, row))
    {
      assert GridOrder(n, numRows, row) + RowCells(n, numRows, row, 0) == GridOrder(n, numRows, row);
      for col := 0 to 3
        invariant transposed == Pick(sorted, GridOrder(n, numRows, row) + RowCells(n, numRows, row, col))
      {
        var index := col * numRows + row;
        GridStep(sorted, GridOrder(n, numRows, row), numRows, row, col, index);
        if index < n {
          transposed := transposed + [sorted[index]];
        }
      }
    }
  }

  /** One more cell of a row: the pick grows by that player when the index
      lies inside the list. */
  lemma GridStep<T>(sorted: seq<T>, prefix: seq<nat>, rows: nat, row: nat, col: nat, index: nat)
    requires index == col * rows + row
    ensures Pick(sorted, prefix + RowCells(|sorted|, rows, row, col + 1))
              == Pick(sorted, prefix + RowCells(|sorted|, rows, row, col)) + (if index < |sorted| then [sorted[index]] else [])
  {
    var cells := RowCells(|sorted|, rows, row, col);
    var next := RowCells(|sorted|, rows, row, col + 1);
    var before := prefix + cells;
    RowCellsSnoc(|sorted|, rows, row, col);
    if index < |sorted| {
      assert next == cells + [index];
      assert prefix + next == before + [index];
      PickSnoc(sorted, before, index);
    } else {
      assert next == cells;
    }
  }

  lemma RowCellsSnoc(n: nat, rows: nat, row: nat, col: nat)
    ensures var index := col * rows + row;
            RowCells(n, rows, row, col + 1) == RowCells(n, rows, row, col) + (if index < n then [index] else [])
  {
    assert (col + 1 - 1) * rows + row == col * rows + row;
  }

  /** When every listed index is inside the list, the pick holds the
      player at each listed index, in the listed order. */
  lemma {:induction false} PickInRange<T>(sorted: seq<T>, order: seq<nat>)
    requires forall k :: 0 <= k < |order| ==> order[k] < |sorted|
    ensures |Pick(sorted, order)| == |order|
    ensures forall k :: 0 <= k < |order| ==> Pick(sorted, order)[k] == sorted[order[k]]
  {
    if order != [] {
      var init := order[..|order| - 1];
      PickInRange(sorted, init);
    }
  }

  /** Picking one more index appends that player, if the index is inside. */
  lemma PickSnoc<T>(sorted: seq<T>, order: seq<nat>, x: nat)
    ensures Pick(sorted, order + [x]) == Pick(sorted, order) + (if x < |sorted| then [sorted[x]] else [])
  {
    var after := order + [x];
    assert after[..|after| - 1] == order;
    assert after[|after| - 1] == x;
  }

  /** Every index the grid lists lies inside the sorted list, so the grid
      holds the player at each listed index, one per index. */
  lemma GridPicksEachOnce(players: seq<PlayerData>)
    ensures var sorted := SortBy(players, HandicapKey);
            var order := GridOrder(|sorted|, GridRows(|sorted|), GridRows(|sorted|));
            && |Pick(sorted, order)| == |order|
            && forall k :: 0 <= k < |order| ==> order[k] < |sorted| && Pick(sorted, order)[k] == sorted[order[k]]
  {
    var sorted := SortBy(players, HandicapKey);
    var n := |sorted|;
    GridOrderBelow(n, GridRows(n), GridRows(n));
    PickInRange(sorted, GridOrder(n, GridRows(n), GridRows(n)));
  }

  // ------------------------------------------------------------ saved rows

  /** A row of the `rounds` insert. */
  datatype RoundRow = RoundRow(name: string, info: Info, orderIndex: nat)

  /** A row of the `round_modes` insert. */
  datatype ModeRow = ModeRow(roundId: RoundId, mode: GameMode, position: nat)

  /** A row of the `scramble_settings` insert. */
  datatype SettingsRow = SettingsRow(roundId: RoundId, withHandicap: bool, pairing: Option<Pairing>, lowPct: Option<int>, highPct: Option<int>)

  /** The rounds insert: name (or its default), info, and the index as order. */
  function RoundRows(rounds: seq<RoundDraft>): (r: seq<RoundRow>)
    ensures |r| == |rounds|
    ensures forall i :: 0 <= i < |rounds| ==>
      r[i].orderIndex == i && r[i].info == rounds[i].info
      && r[i].name == (if rounds[i].name == "" then RoundLabel(i) else rounds[i].name)
  {
    seq(|rounds|, i requires 0 <= i < |rounds| =>
      RoundRow(if rounds[i].name == "" then RoundLabel(i) else rounds[i].name, rounds[i].info, i))
  }

  /** The mode rows of one round: each mode with its position. */
  function ModesOfRound(roundId: RoundId, modes: seq<GameMode>): (r: seq<ModeRow>)
    ensures |r| == |modes|
    ensures forall pos :: 0 <= pos < |modes| ==> r[pos] == ModeRow(roundId, modes[pos], pos)
  {
    if modes == [] then [] else ModesOfRound(roundId, modes[..|modes| - 1]) + [ModeRow(roundId, modes[|modes| - 1], |modes| - 1)]
  }

  /** All mode rows, round by round. */
  function AllModeRows(roundIds: seq<RoundId>, rounds: seq<RoundDraft>): seq<ModeRow>
    requires |roundIds| == |rounds|
  {
    if rounds == [] then []
    else
      var n := |rounds| - 1;
      AllModeRows(roundIds[..n], rounds[..n]) + ModesOfRound(roundIds[n], rounds[n].modes)
  }

  /** The settings row of a round with scramble options. */
  function SettingsOf(roundId: RoundId, o: ScrambleOptions): SettingsRow {
    SettingsRow(roundId, o.withHandicap, o.pairing, o.lowPct, o.highPct)
  }

  /** One settings row per round that has scramble options, in round order. */
  function AllSettingsRows(roundIds: seq<RoundId>, rounds: seq<RoundDraft>): seq<SettingsRow>
    requires |roundIds| == |rounds|
  {
    if rounds == [] then []
    else
      var n := |rounds| - 1;
      AllSettingsRows(roundIds[..n], rounds[..n])
        + (if rounds[n].scrambleOptions.Some? then [SettingsOf(roundIds[n], rounds[n].scrambleOptions.value)] else [])
  }

  /** The `roundModes` loops over the inserted rounds and their modes. */
  method BuildModeRows(roundIds: seq<RoundId>, rounds: seq<RoundDraft>) returns (roundModes: seq<ModeRow>)
    requires |roundIds| == |rounds|
    ensures roundModes == AllModeRows(roundIds, rounds)
  {
    roundModes := [];
    for i := 0 to |roundIds|
      invariant roundModes == AllModeRows(roundIds[..i], rounds[..i])
    {
      assert roundIds[..i + 1][..i] == roundIds[..i];
      assert rounds[..i + 1][..i] == rounds[..i];
      ghost var before := roundModes;
      var modes := rounds[i].modes;
      for pos := 0 to |modes|
        invariant roundModes == before + ModesOfRound(roundIds[i], modes[..pos])
      {
        assert modes[..pos + 1][..pos] == modes[..pos];
        roundModes := roundModes + [ModeRow(roundIds[i], modes[pos], pos)];
      }
      assert modes[..|modes|] == modes;
    }
    assert roundIds[..|roundIds|] == roundIds;
    assert rounds[..|rounds|] == rounds;
  }

  /** The `scrambleSettings` loop. */
  method BuildSettingsRows(roundIds: seq<RoundId>, rounds: seq<RoundDraft>) returns (scrambleSettings: seq<SettingsRow>)
    requires |roundIds| == |rounds|
    ensures scrambleSettings == AllSettingsRows(roundIds, rounds)
  {
    scrambleSettings := [];
    for i := 0 to |roundIds|
      invariant scrambleSettings == AllSettingsRows(roundIds[..i], rounds[..i])
    {
      assert roundIds[..i + 1][..i] == roundIds[..i];
      assert rounds[..i + 1][..i] == rounds[..i];
      var scramble := rounds[i].scrambleOptions;
      if scramble.Some? {
        scrambleSettings := scrambleSettings + [SettingsOf(roundIds[i], scramble.value)];
      }
    }
    assert roundIds[..|roundIds|] == roundIds;
    assert rounds[..|rounds|] == rounds;
  }
}
