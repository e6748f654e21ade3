/** Scoring: the points of one plot, and the end-of-game score of the whole
    board with its per-building breakdown, vagrant penalty and Almshouse
    relief. */
module Scoring {
  import opened Board
  import opened Activation
  import opened Population
  import opened Guilds

  // ----- University -----

  /** University points for the number of distinct advanced buildings:
      0, 5, 8, 12, then 15 for four or more. */
  function UniPoints(n: nat): (p: nat)
    ensures p <= 15
    ensures p == 0 <==> n == 0
    ensures n >= 4 ==> p == 15
  {
    if n == 0 then 0
    else if n == 1 then 5
    else if n == 2 then 8
    else if n == 3 then 12
    else 15
  }

  /** More distinct advanced buildings never lower the University's points. */
  lemma UniPointsMonotone(m: nat, n: nat)
    requires m <= n
    ensures UniPoints(m) <= UniPoints(n)
  {
  }

  /** The distinct advanced building codes among the given plots (forfeited
      or inactive plots included). */
  function AdvancedIn(board: Grid<Cell>, within: set<Pos>): set<Code>
    requires IsRect(board) && within <= Cells(board)
  {
    set p | p in within && board[p.0][p.1].building.Some? &&
      RuleOf(board[p.0][p.1].building.value).category == Advanced :: board[p.0][p.1].building.value
  }

  function AdvancedCodes(board: Grid<Cell>): set<Code>
    requires IsRect(board)
  {
    AdvancedIn(board, Cells(board))
  }

  /** A code is counted exactly when it is advanced and on the board; so at
      most four are. */
  lemma AdvancedCodesMembers(board: Grid<Cell>, code: Code)
    requires IsRect(board)
    ensures code in AdvancedCodes(board) <==>
      code in {Code.T, Code.U, Code.A, Code.G} &&
      exists p :: p in Cells(board) && HasCode(board[p.0][p.1], code)
    ensures |AdvancedCodes(board)| <= 4
  {
    SubsetCard(AdvancedCodes(board), {Code.T, Code.U, Code.A, Code.G});
  }

  /** Collects the distinct advanced codes in a row-major scan. */
  method CountAdvanced(board: Grid<Cell>) returns (n: nat)
    requires IsRect(board)
    ensures n == |AdvancedCodes(board)|
  {
    var adv: set<Code> := {};
    for r := 0 to Rows(board)
      invariant adv == AdvancedIn(board, CellsBefore(board, r, 0))
    {
      for c := 0 to Cols(board)
        invariant adv == AdvancedIn(board, CellsBefore(board, r, c))
      {
        NextCell(board, r, c);
        AdvancedStep(board, CellsBefore(board, r, c), (r, c));
        var cell := board[r][c];
        if cell.building.Some? && RuleOf(cell.building.value).category == Advanced {
          adv := adv + {cell.building.value};
        }
      }
      EndOfRow(board, r);
    }
    AllVisited(board);
    n := |adv|;
  }

  lemma AdvancedStep(board: Grid<Cell>, within: set<Pos>, p: Pos)
    requires IsRect(board) && within <= Cells(board) && InGrid(board, p)
    ensures var cell := board[p.0][p.1];
      AdvancedIn(board, within + {p}) ==
        AdvancedIn(board, within) +
        (if cell.building.Some? && RuleOf(cell.building.value).category == Advanced
         then {cell.building.value} else {})
  {
  }

  // ----- Town Hall -----

  /** An active plot holding a basic or special building (Cottages and
      Springhouses included). */
  predicate TownhallCounts(board: Grid<Cell>, act: map<Pos, bool>, p: Pos)
    requires IsRect(board) && InGrid(board, p)
  {
    board[p.0][p.1].building.Some? &&
    RuleOf(board[p.0][p.1].building.value).category != Advanced &&
    IsActive(act, p)
  }

  /** The codes counted among the first n plots of row r. */
  function RowBasics(board: Grid<Cell>, act: map<Pos, bool>, r: int, n: int): set<Code>
    requires IsRect(board) && 0 <= r < Rows(board) && 0 <= n <= Cols(board)
  {
    set k | 0 <= k < n && TownhallCounts(board, act, (r, k)) :: board[r][k].building.value
  }

  /** The codes counted among the first n plots of column c. */
  function ColBasics(board: Grid<Cell>, act: map<Pos, bool>, c: int, n: int): set<Code>
    requires IsRect(board) && 0 <= c < Cols(board) && 0 <= n <= Rows(board)
  {
    set k | 0 <= k < n && TownhallCounts(board, act, (k, c)) :: board[k][c].building.value
  }

  /** The distinct basic and special codes active in row r or column c. */
  function UniqueBasics(board: Grid<Cell>, act: map<Pos, bool>, r: int, c: int): set<Code>
    requires IsRect(board) && InGrid(board, (r, c))
  {
    RowBasics(board, act, r, Cols(board)) + ColBasics(board, act, c, Rows(board))
  }

  /** An active plot of row r or column c holding `code`. */
  ghost predicate InRowCol(board: Grid<Cell>, act: map<Pos, bool>, r: int, c: int, code: Code)
    requires IsRect(board)
  {
    exists p :: p in Cells(board) && (p.0 == r || p.1 == c) && HasCode(board[p.0][p.1], code) && IsActive(act, p)
  }

  /** A code is among the Town Hall's basics exactly when it is not advanced
      and an active plot of the row or column holds it; so at most six are. */
  lemma UniqueBasicsMembers(board: Grid<Cell>, act: map<Pos, bool>, r: int, c: int, code: Code)
    requires IsRect(board) && InGrid(board, (r, c))
    ensures code in UniqueBasics(board, act, r, c) <==>
      RuleOf(code).category != Advanced && InRowCol(board, act, r, c, code)
    ensures |UniqueBasics(board, act, r, c)| <= 6
  {
    if code in UniqueBasics(board, act, r, c) {
      BasicIsInRowCol(board, act, r, c, code);
    }
    if RuleOf(code).category != Advanced && InRowCol(board, act, r, c, code) {
      InRowColIsBasic(board, act, r, c, code);
    }
    BasicsBound(board, act, r, c);
  }

  lemma BasicsBound(board: Grid<Cell>, act: map<Pos, bool>, r: int, c: int)
    requires IsRect(board) && InGrid(board, (r, c))
    ensures |UniqueBasics(board, act, r, c)| <= 6
  {
    var basics := UniqueBasics(board, act, r, c);
    var nonAdvanced := {Code.C, Code.F, Code.Q, Code.W, Code.M, Code.S};
    forall x | x in basics ensures x in nonAdvanced {
      CountedIsBasic(board, act, r, c, x);
      NonAdvancedCodes(x);
    }
    SubsetCard(basics, nonAdvanced);
  }

  lemma CountedIsBasic(board: Grid<Cell>, act: map<Pos, bool>, r: int, c: int, x: Code)
    requires IsRect(board) && InGrid(board, (r, c)) && x in UniqueBasics(board, act, r, c)
    ensures RuleOf(x).category != Advanced
  {
    if x in RowBasics(board, act, r, Cols(board)) {
      var k :| 0 <= k < Cols(board) && TownhallCounts(board, act, (r, k)) && board[r][k].building.value == x;
    } else {
      var k :| 0 <= k < Rows(board) && TownhallCounts(board, act, (k, c)) && board[k][c].building.value == x;
    }
  }

  /** The six codes that are not advanced. */
  lemma NonAdvancedCodes(x: Code)
    requires RuleOf(x).category != Advanced
    ensures x in {Code.C, Code.F, Code.Q, Code.W, Code.M, Code.S}
  {
  }

  lemma BasicIsInRowCol(board: Grid<Cell>, act: map<Pos, bool>, r: int, c: int, code: Code)
    requires IsRect(board) && InGrid(board, (r, c))
    requires code in UniqueBasics(board, act, r, c)
    ensures RuleOf(code).category != Advanced && InRowCol(board, act, r, c, code)
  {
    if code in RowBasics(board, act, r, Cols(board)) {
      var k :| 0 <= k < Cols(board) && TownhallCounts(board, act, (r, k)) && board[r][k].building.value == code;
      assert (r, k) in Cells(board) && HasCode(board[r][k], code);
    } else {
      var k :| 0 <= k < Rows(board) && TownhallCounts(board, act, (k, c)) && board[k][c].building.value == code;
      assert (k, c) in Cells(board) && HasCode(board[k][c], code);
    }
  }

  lemma InRowColIsBasic(board: Grid<Cell>, act: map<Pos, bool>, r: int, c: int, code: Code)
    requires IsRect(board) && InGrid(board, (r, c))
    requires RuleOf(code).category != Advanced && InRowCol(board, act, r, c, code)
    ensures code in UniqueBasics(board, act, r, c)
  {
    var p :| p in Cells(board) && (p.0 == r || p.1 == c) && HasCode(board[p.0][p.1], code) && IsActive(act, p);
    if p.0 == r {
      assert TownhallCounts(board, act, (r, p.1)) && board[r][p.1].building.value == code;
      assert code in RowBasics(board, act, r, Cols(board));
    } else {
      assert TownhallCounts(board, act, (p.0, c)) && board[p.0][c].building.value == code;
      assert code in ColBasics(board, act, c, Rows(board));
    }
  }

  /** Collects the Town Hall's basics: row r first, then column c. */
  method UniqueBasicsRowCol(board: Grid<Cell>, act: map<Pos, bool>, r: int, c: int) returns (basics: set<Code>)
    requires IsRect(board) && InGrid(board, (r, c))
    ensures basics == UniqueBasics(board, act, r, c)
  {
    basics := {};
    for cc := 0 to Cols(board)
      invariant basics == RowBasics(board, act, r, cc)
    {
      var cell := board[r][cc];
      if cell.building.Some? && RuleOf(cell.building.value).category != Advanced && IsActive(act, (r, cc)) {
        basics := basics + {cell.building.value};
      }
      assert RowBasics(board, act, r, cc + 1) ==
        RowBasics(board, act, r, cc) + (if TownhallCounts(board, act, (r, cc)) then {cell.building.value} else {});
    }
    ghost var inRow := basics;
    for rr := 0 to Rows(board)
      invariant basics == inRow + ColBasics(board, act, c, rr)
    {
      var cell := board[rr][c];
      if cell.building.Some? && RuleOf(cell.building.value).category != Advanced && IsActive(act, (rr, c)) {
        basics := basics + {cell.building.value};
      }
      assert ColBasics(board, act, c, rr + 1) ==
        ColBasics(board, act, c, rr) + (if TownhallCounts(board, act, (rr, c)) then {cell.building.value} else {});
    }
  }

  // ----- one plot -----

  /** The points a built plot earns when it is active, by building:
      Farm 3 (+2 beside a Springhouse), Quarry 3 (+1 with another Quarry in
      its row or column), Windmill 3 (+1 per adjacent Windmill), Market the
      population around it, Springhouse 0 (-1 per adjacent forfeited plot),
      Town Hall 5 (+2 per basic in its row and column), University by the
      advanced buildings on the board; Cottage, Almshouse and Guild earn
      nothing here. */
  function BuildingPoints(board: Grid<Cell>, pop: Grid<int>, act: map<Pos, bool>, r: int, c: int): (pts: int)
    requires IsRect(board) && InGrid(board, (r, c)) && board[r][c].building.Some?
    ensures board[r][c].building.value == Code.F ==> pts == 3 || pts == 5
    ensures board[r][c].building.value == Code.Q ==> pts == 3 || pts == 4
    ensures board[r][c].building.value == Code.W ==> 3 <= pts <= 7
    ensures board[r][c].building.value == Code.S ==> -4 <= pts <= 0
    ensures board[r][c].building.value == Code.T ==> 5 <= pts <= 17
    ensures board[r][c].building.value == Code.U ==> 0 <= pts <= 15
    ensures board[r][c].building.value in {Code.C, Code.A, Code.G} ==> pts == 0
  {
    var ns := Neighbors(board, r, c);
    match board[r][c].building.value
    case F => RuleOf(Code.F).base + (if AnyWithCode(board, ns, Code.S) then 2 else 0)
    case Q => RuleOf(Code.Q).base + (if RowColHas(board, r, c, Code.Q) then 1 else 0)
    case W => RuleOf(Code.W).base + CountWithCode(board, ns, Code.W)
    case M => PopAround(r, c, pop)
    case S => RuleOf(Code.S).base - CountForfeitedAt(board, ns)
    case T => TownHallPoints(board, act, r, c)
    case U => UniversityPoints(board)
    case _ => 0
  }

  /** How many distinct basic buildings stand active in row r and column c:
      at most six. */
  function BasicsCount(board: Grid<Cell>, act: map<Pos, bool>, r: int, c: int): (n: nat)
    requires IsRect(board) && InGrid(board, (r, c))
    ensures n <= 6
  {
    BasicsBound(board, act, r, c);
    |UniqueBasics(board, act, r, c)|
  }

  /** A Town Hall's points: its base and 2 per distinct basic building in
      its row and column, of which there are at most six. */
  function TownHallPoints(board: Grid<Cell>, act: map<Pos, bool>, r: int, c: int): (pts: int)
    requires IsRect(board) && InGrid(board, (r, c))
    ensures 5 <= pts <= 17
  {
    RuleOf(Code.T).base + 2 * BasicsCount(board, act, r, c)
  }

  /** A University's points, from the at most four distinct advanced
      buildings on the board. */
  function UniversityPoints(board: Grid<Cell>): (pts: int)
    requires IsRect(board)
    ensures 0 <= pts <= 15
  {
    UniPoints(|AdvancedCodes(board)|)
  }

  /** The points of the plot (r, c) on its own: nothing for a plot off the
      board, unbuilt, forfeited in either way or inactive; 15 for a Guild
      whose condition holds; otherwise its building's points. */
  ghost function ScoreAt(board: Grid<Cell>, pop: Grid<int>, act: map<Pos, bool>, r: int, c: int): (pts: int)
    requires IsRect(board)
    ensures pts != 0 ==>
      InGrid(board, (r, c)) && board[r][c].building.Some? &&
      !board[r][c].forfeited && !board[r][c].activationForfeit && IsActive(act, (r, c))
    ensures InGrid(board, (r, c)) && HasCode(board[r][c], Code.G) ==> pts == 0 || pts == 15
    ensures InGrid(board, (r, c)) && HasCode(board[r][c], Code.G) &&
            !board[r][c].forfeited && !board[r][c].activationForfeit ==>
              (pts == 15 <==> Qualifies(board, act, (r, c)))
  {
    if !InGrid(board, (r, c)) then 0
    else
      var cell := board[r][c];
      if cell.building.None? || cell.forfeited || cell.activationForfeit || !IsActive(act, (r, c)) then 0
      else if cell.building.value == Code.G then
        var target := GuildTarget(cell.buildingLabel);
        if target.Some? && GuildConditionHolds(board, act, target.value) then 15 else 0
      else BuildingPoints(board, pop, act, r, c)
  }

  /** The points of a built, active plot, as the scan reckons them. */
  method PlotPoints(board: Grid<Cell>, pop: Grid<int>, act: map<Pos, bool>, r: int, c: int) returns (pts: int)
    requires IsRect(board) && InGrid(board, (r, c)) && board[r][c].building.Some?
    ensures pts == BuildingPoints(board, pop, act, r, c)
  {
    match board[r][c].building.value
    case T =>
      var basics := UniqueBasicsRowCol(board, act, r, c);
      pts := RuleOf(Code.T).base + 2 * |basics|;
    case U =>
      var n := CountAdvanced(board);
      pts := UniPoints(n);
    case _ =>
      pts := BuildingPoints(board, pop, act, r, c);
  }

  /** The activation used for one plot: the one given, or else the one the
      population and workers decide. */
  function ActivationFor(board: Grid<Cell>, pop: Grid<int>, workers: Option<Grid<int>>,
                         activation: Option<map<Pos, bool>>): map<Pos, bool>
    requires IsRect(board)
  {
    if activation.Some? then activation.value else ActivationMapOf(board, pop, workers)
  }

  /** Scores the single plot (r, c). */
  method ScoreBuildingAt(board: Grid<Cell>, pop: Grid<int>, workers: Option<Grid<int>>, r: int, c: int,
                         activation: Option<map<Pos, bool>>) returns (pts: int)
    requires IsRect(board)
    ensures pts == ScoreAt(board, pop, ActivationFor(board, pop, workers, activation), r, c)
  {
    if !(0 <= r < Rows(board) && 0 <= c < Cols(board)) {
      return 0;
    }
    var cell := board[r][c];
    if cell.building.None? || cell.forfeited || cell.activationForfeit {
      return 0;
    }
    var act: map<Pos, bool>;
    if activation.Some? {
      act := activation.value;
    } else {
      act := ComputeActivationMap(board, pop, workers);
    }
    if !IsActive(act, (r, c)) {
      return 0;
    }
    if cell.building.value == Code.G {
      var target := GuildTarget(cell.buildingLabel);
      if target.None? {
        return 0;
      }
      var meets := MeetsGuildCondition(board, act, target.value);
      pts := if meets then 15 else 0;
    } else {
      pts := PlotPoints(board, pop, act, r, c);
    }
  }

  // ----- the whole board -----

  /** What the whole-board scan adds for plot (r, c) to the total of `code`. */
  function Term(board: Grid<Cell>, pop: Grid<int>, act: map<Pos, bool>, code: Code, r: int, c: int): int
    requires IsRect(board) && InGrid(board, (r, c))
  {
    if HasCode(board[r][c], code) && IsActive(act, (r, c)) then BuildingPoints(board, pop, act, r, c) else 0
  }

  /** The scan's running total for `code` over the plots before (r, c). */
  function Tally(board: Grid<Cell>, pop: Grid<int>, act: map<Pos, bool>, code: Code, r: int, c: int): int
    requires IsRect(board) && 0 <= r <= Rows(board) && 0 <= c <= Cols(board) && (r < Rows(board) || c == 0)
    decreases r, c
  {
    if c > 0 then Tally(board, pop, act, code, r, c - 1) + Term(board, pop, act, code, r, c - 1)
    else if r > 0 then Tally(board, pop, act, code, r - 1, Cols(board))
    else 0
  }

  /** The sum of the single-plot scores of the `code` plots before (r, c). */
  ghost function ScoreSum(board: Grid<Cell>, pop: Grid<int>, act: map<Pos, bool>, code: Code, r: int, c: int): int
    requires IsRect(board) && 0 <= r <= Rows(board) && 0 <= c <= Cols(board) && (r < Rows(board) || c == 0)
    decreases r, c
  {
    if c > 0 then
      ScoreSum(board, pop, act, code, r, c - 1) +
      (if HasCode(board[r][c - 1], code) then ScoreAt(board, pop, act, r, c - 1) else 0)
    else if r > 0 then ScoreSum(board, pop, act, code, r - 1, Cols(board))
    else 0
  }

  /** The sum of the single-plot scores of every plot holding `code`. */
  ghost function PlotTotal(board: Grid<Cell>, pop: Grid<int>, act: map<Pos, bool>, code: Code): int
    requires IsRect(board)
  {
    ScoreSum(board, pop, act, code, Rows(board), 0)
  }

  /** Under any activation that activates only standing buildings (the
      board's own among them), the scan's running total for any building
      but the Guild is the sum of the single-plot scores. */
  lemma {:induction false} TallyIsScoreSum(board: Grid<Cell>, pop: Grid<int>, act: map<Pos, bool>,
                                           code: Code, r: int, c: int)
    requires IsRect(board) && 0 <= r <= Rows(board) && 0 <= c <= Cols(board) && (r < Rows(board) || c == 0)
    requires code != Code.G && ActiveOnlyStanding(board, act)
    ensures Tally(board, pop, act, code, r, c) == ScoreSum(board, pop, act, code, r, c)
    decreases r, c
  {
    if c > 0 {
      TallyIsScoreSum(board, pop, act, code, r, c - 1);
      TermIsScore(board, pop, act, code, r, c - 1);
    } else if r > 0 {
      TallyIsScoreSum(board, pop, act, code, r - 1, Cols(board));
    }
  }

  /** What the scan adds for one plot is its single-plot score, for any
      building but the Guild, when only standing buildings are active. */
  lemma TermIsScore(board: Grid<Cell>, pop: Grid<int>, act: map<Pos, bool>, code: Code, r: int, c: int)
    requires IsRect(board) && InGrid(board, (r, c))
    requires code != Code.G && ActiveOnlyStanding(board, act)
    ensures Term(board, pop, act, code, r, c) == (if HasCode(board[r][c], code) then ScoreAt(board, pop, act, r, c) else 0)
  {
    if HasCode(board[r][c], code) && IsActive(act, (r, c)) {
      assert !board[r][c].forfeited && !board[r][c].activationForfeit;
    }
  }

  /** Only a plot on the board holding a building forfeited in neither way
      is active, as in the board's own activation map. */
  ghost predicate ActiveOnlyStanding(board: Grid<Cell>, act: map<Pos, bool>)
    requires IsRect(board)
  {
    forall p :: IsActive(act, p) ==>
      InGrid(board, p) && board[p.0][p.1].building.Some? &&
      !board[p.0][p.1].forfeited && !board[p.0][p.1].activationForfeit
  }

  /** The board's own activation map activates only standing buildings. */
  lemma OwnMapActiveOnlyStanding(board: Grid<Cell>, pop: Grid<int>, workers: Option<Grid<int>>)
    requires IsRect(board)
    ensures ActiveOnlyStanding(board, ActivationMapOf(board, pop, workers))
  {
    forall p | IsActive(ActivationMapOf(board, pop, workers), p) {
      ActiveIsBuilt(board, pop, workers, p);
    }
  }

  /** 15 points per qualifying Guild is the sum of the Guilds' single-plot
      scores, under any activation that activates only standing buildings. */
  lemma {:induction false} GuildsAreScoreSum(board: Grid<Cell>, pop: Grid<int>, act: map<Pos, bool>, r: int, c: int)
    requires IsRect(board) && 0 <= r <= Rows(board) && 0 <= c <= Cols(board) && (r < Rows(board) || c == 0)
    requires ActiveOnlyStanding(board, act)
    ensures 15 * |QualifyingGuilds(board, act, CellsBefore(board, r, c))| == ScoreSum(board, pop, act, Code.G, r, c)
    decreases r, c
  {
    if c > 0 {
      GuildsAreScoreSum(board, pop, act, r, c - 1);
      NextCell(board, r, c - 1);
      QualifyingStep(board, act, CellsBefore(board, r, c - 1), (r, c - 1));
      GuildPlotScore(board, pop, act, r, c - 1);
    } else if r > 0 {
      GuildsAreScoreSum(board, pop, act, r - 1, Cols(board));
      EndOfRow(board, r - 1);
    } else {
      assert CellsBefore(board, r, c) == {};
    }
  }

  /** When only standing buildings are active, a Guild plot scores 15
      exactly when it qualifies. */
  lemma GuildPlotScore(board: Grid<Cell>, pop: Grid<int>, act: map<Pos, bool>, r: int, c: int)
    requires IsRect(board) && InGrid(board, (r, c))
    requires ActiveOnlyStanding(board, act)
    ensures (if HasCode(board[r][c], Code.G) then ScoreAt(board, pop, act, r, c) else 0) ==
      (if Qualifies(board, act, (r, c)) then 15 else 0)
  {
    if Qualifies(board, act, (r, c)) {
      assert IsActive(act, (r, c));
    }
  }

  /** Springhouses only ever lose points. */
  lemma {:induction false} SpringhousesNeverGain(board: Grid<Cell>, pop: Grid<int>, act: map<Pos, bool>, r: int, c: int)
    requires IsRect(board) && 0 <= r <= Rows(board) && 0 <= c <= Cols(board) && (r < Rows(board) || c == 0)
    ensures ScoreSum(board, pop, act, Code.S, r, c) <= 0
    decreases r, c
  {
    if c > 0 {
      SpringhousesNeverGain(board, pop, act, r, c - 1);
    } else if r > 0 {
      SpringhousesNeverGain(board, pop, act, r - 1, Cols(board));
    }
  }

  /** Two points per occupied Cottage; a Cottage is occupied for every four
      people, whether or not it is active. */
  function CottageScore(pop: int, cottages: nat): (s: int)
    ensures s == 2 * cottages || s == 2 * (pop / 4)
    ensures s <= 2 * cottages && s <= 2 * (pop / 4)
    ensures pop >= 0 ==> 0 <= s && 2 * s <= pop
  {
    2 * (if cottages < pop / 4 then cottages else pop / 4)
  }

  /** The vagrant penalty: minus the population the Cottages cannot house,
      of which an active Almshouse cancels up to 12. */
  function VagrantTerm(pop: int, housing: int, almshouse: bool): (v: int)
    ensures -CalcVagrants(pop, housing) <= v <= 0
    ensures !almshouse ==> v == -CalcVagrants(pop, housing)
    ensures almshouse ==> v <= -CalcVagrants(pop, housing) + 12
    ensures almshouse ==> (v == 0 <==> CalcVagrants(pop, housing) <= 12)
    ensures almshouse ==> v == 0 || v == -CalcVagrants(pop, housing) + 12
  {
    var v := -CalcVagrants(pop, housing);
    if almshouse && v < 0 then (if v + 12 < 0 then v + 12 else 0) else v
  }

  /** Some active plot holds an Almshouse. */
  predicate AlmshouseActive(board: Grid<Cell>, act: map<Pos, bool>)
    requires IsRect(board)
  {
    exists p :: p in Cells(board) && HasCode(board[p.0][p.1], Code.A) && IsActive(act, p)
  }

  /** The score by category. The Almshouse and forfeit entries stay 0: the
      Almshouse acts through the vagrant entry, forfeits through the
      Springhouses. */
  datatype Breakdown = Breakdown(
    cottages: int, farm: int, quarry: int, windmill: int, market: int, springhouse: int,
    townhall: int, university: int, almshouse: int, guilds: int, forfeits: int, vagrants: int)

  datatype ScoreResult = ScoreResult(total: int, breakdown: Breakdown, pop: int, housing: int, forfeits: int)

  /** The total adds every entry but the (always 0) Almshouse and forfeits. */
  function BreakdownTotal(b: Breakdown): int {
    b.cottages + b.farm + b.quarry + b.windmill + b.market + b.springhouse +
    b.townhall + b.university + b.guilds + b.vagrants
  }

  /** The building entries hold the scan's running totals up to (r, c). */
  ghost predicate TalliedTo(b: Breakdown, board: Grid<Cell>, pop: Grid<int>, act: map<Pos, bool>, r: int, c: int)
    requires IsRect(board) && 0 <= r <= Rows(board) && 0 <= c <= Cols(board) && (r < Rows(board) || c == 0)
  {
    b.farm == Tally(board, pop, act, Code.F, r, c) &&
    b.quarry == Tally(board, pop, act, Code.Q, r, c) &&
    b.windmill == Tally(board, pop, act, Code.W, r, c) &&
    b.market == Tally(board, pop, act, Code.M, r, c) &&
    b.springhouse == Tally(board, pop, act, Code.S, r, c) &&
    b.townhall == Tally(board, pop, act, Code.T, r, c) &&
    b.university == Tally(board, pop, act, Code.U, r, c)
  }

  /** The running total for `code` grows at an active plot holding it by
      that plot's points, and stays put at any other. */
  lemma TallyStep(board: Grid<Cell>, pop: Grid<int>, act: map<Pos, bool>, code: Code, r: int, c: int)
    requires IsRect(board) && InGrid(board, (r, c))
    ensures board[r][c].building == Some(code) && IsActive(act, (r, c)) ==>
      Tally(board, pop, act, code, r, c + 1) == Tally(board, pop, act, code, r, c) + BuildingPoints(board, pop, act, r, c)
    ensures !(board[r][c].building == Some(code) && IsActive(act, (r, c))) ==>
      Tally(board, pop, act, code, r, c + 1) == Tally(board, pop, act, code, r, c)
  {
  }

  /** Adds plot (r, c)'s points to its building's entry when it is active. */
  method AddPlot(board: Grid<Cell>, pop: Grid<int>, act: map<Pos, bool>, r: int, c: int, b: Breakdown)
    returns (b': Breakdown)
    requires IsRect(board) && InGrid(board, (r, c))
    requires TalliedTo(b, board, pop, act, r, c)
    ensures TalliedTo(b', board, pop, act, r, c + 1)
    ensures b'.cottages == b.cottages && b'.almshouse == b.almshouse && b'.guilds == b.guilds &&
      b'.forfeits == b.forfeits && b'.vagrants == b.vagrants
  {
    b' := b;
    var cell := board[r][c];
    if cell.building.None? || !IsActive(act, (r, c)) {
      return;
    }
    var pts := PlotPoints(board, pop, act, r, c);
    TallyStep(board, pop, act, Code.F, r, c);
    TallyStep(board, pop, act, Code.Q, r, c);
    TallyStep(board, pop, act, Code.W, r, c);
    TallyStep(board, pop, act, Code.M, r, c);
    TallyStep(board, pop, act, Code.S, r, c);
    TallyStep(board, pop, act, Code.T, r, c);
    TallyStep(board, pop, act, Code.U, r, c);
    match cell.building.value
    case F => b' := b.(farm := b.farm + pts);
    case Q => b' := b.(quarry := b.quarry + pts);
    case W => b' := b.(windmill := b.windmill + pts);
    case M => b' := b.(market := b.market + pts);
    case S => b' := b.(springhouse := b.springhouse + pts);
    case T => b' := b.(townhall := b.townhall + pts);
    case U => b' := b.(university := b.university + pts);
    case _ =>
  }

  /** Scores the whole board. Every building entry is the sum of the
      single-plot scores of the plots holding that building. */
  method ComputeScore(board: Grid<Cell>, pop: Grid<int>, workers: Option<Grid<int>>) returns (res: ScoreResult)
    requires IsRect(board)
    ensures res.pop == GridSum(pop)
    ensures res.housing == 4 * CountCode(Flat(board), Code.C)
    ensures res.forfeits == CountForfeits(Flat(board))
    ensures res.breakdown.cottages == CottageScore(GridSum(pop), CountCode(Flat(board), Code.C))
    ensures var act := ActivationMapOf(board, pop, workers);
      res.breakdown.farm == PlotTotal(board, pop, act, Code.F) &&
      res.breakdown.quarry == PlotTotal(board, pop, act, Code.Q) &&
      res.breakdown.windmill == PlotTotal(board, pop, act, Code.W) &&
      res.breakdown.market == PlotTotal(board, pop, act, Code.M) &&
      res.breakdown.springhouse == PlotTotal(board, pop, act, Code.S) &&
      res.breakdown.townhall == PlotTotal(board, pop, act, Code.T) &&
      res.breakdown.university == PlotTotal(board, pop, act, Code.U) &&
      res.breakdown.guilds == PlotTotal(board, pop, act, Code.G)
    ensures res.breakdown.vagrants ==
      VagrantTerm(GridSum(pop), res.housing, AlmshouseActive(board, ActivationMapOf(board, pop, workers)))
    ensures res.breakdown.almshouse == 0 && res.breakdown.forfeits == 0
    ensures res.total == BreakdownTotal(res.breakdown)
  {
    var popTotal := GridSum(pop);
    var cottages := CountCode(Flat(board), Code.C);
    var housing := cottages * 4;
    var forfeitsCount := CountForfeits(Flat(board));
    var act := ComputeActivationMap(board, pop, workers);
    var b := Breakdown(CottageScore(popTotal, cottages), 0, 0, 0, 0, 0, 0, 0, 0, 0, 0, -CalcVagrants(popTotal, housing));
    for r := 0 to Rows(board)
      invariant TalliedTo(b, board, pop, act, r, 0)
      invariant b.cottages == CottageScore(popTotal, cottages)
      invariant b.almshouse == 0 && b.forfeits == 0 && b.guilds == 0
      invariant b.vagrants == -CalcVagrants(popTotal, housing)
    {
      for c := 0 to Cols(board)
        invariant TalliedTo(b, board, pop, act, r, c)
        invariant b.cottages == CottageScore(popTotal, cottages)
        invariant b.almshouse == 0 && b.forfeits == 0 && b.guilds == 0
        invariant b.vagrants == -CalcVagrants(popTotal, housing)
      {
        b := AddPlot(board, pop, act, r, c, b);
      }
    }
    var guilds := GuildBonuses(board, act);
    b := b.(guilds := guilds);
    if AlmshouseActive(board, act) {
      if b.vagrants < 0 {
        var relieved := b.vagrants + 12;
        b := b.(vagrants := if relieved < 0 then relieved else 0);
      }
    }
    res := ScoreResult(BreakdownTotal(b), b, popTotal, housing, forfeitsCount);
    ScanMatchesPlots(board, pop, workers);
    AllVisited(board);
    OwnMapActiveOnlyStanding(board, pop, workers);
    GuildsAreScoreSum(board, pop, act, Rows(board), 0);
  }

  lemma ScanMatchesPlots(board: Grid<Cell>, pop: Grid<int>, workers: Option<Grid<int>>)
    requires IsRect(board)
    ensures var act := ActivationMapOf(board, pop, workers);
      forall code :: code != Code.G ==> Tally(board, pop, act, code, Rows(board), 0) == PlotTotal(board, pop, act, code)
  {
    var act := ActivationMapOf(board, pop, workers);
    OwnMapActiveOnlyStanding(board, pop, workers);
    forall code | code != Code.G
      ensures Tally(board, pop, act, code, Rows(board), 0) == PlotTotal(board, pop, act, code)
    {
      TallyIsScoreSum(board, pop, act, code, Rows(board), 0);
    }
  }
}
