/** The endgame state machine of one game: placing buildings, the
    Springhouse boost, and the activation phase in which workers move from
    the population nodes onto the buildings and unfillable buildings are
    forfeited for scoring. */
module Game {
  import opened Board
  import opened Activation
  import opened BuildOptions

  /** The rows of a two-dimensional array, as a grid. */
  function Snapshot<X>(a: array2<X>): (g: Grid<X>)
    reads a
    ensures |g| == a.Length0 && IsRect(g)
    ensures forall i :: 0 <= i < |g| ==> |g[i]| == a.Length1
    ensures forall i, j :: 0 <= i < a.Length0 && 0 <= j < a.Length1 ==> g[i][j] == a[i, j]
  {
    seq(a.Length0, i requires 0 <= i < a.Length0 reads a =>
      seq(a.Length1, j requires 0 <= j < a.Length1 reads a => a[i, j]))
  }

  // ----- placement -----

  /** Some guild type is not yet the label of a guild on the board. */
  predicate GuildTypeLeft(g: Grid<Cell>) {
    var used := GuildLabelsIn(Flat(g));
    !(GuildLabel(GF) in used && GuildLabel(GQ) in used && GuildLabel(GW) in used && GuildLabel(GM) in used)
  }

  /** The checks placing `code` at (r, c) must pass: the plot is open; a
      Town Hall, University or Almshouse is not already built; a Guild needs
      a chosen type, fewer than two guilds on the board and a type not yet
      used. */
  predicate CanPlace(g: Grid<Cell>, r: int, c: int, code: Code, selected: Option<Label>)
    requires IsRect(g) && InGrid(g, (r, c))
  {
    IsOpen(g[r][c]) &&
    (OncePerGame(code) ==> CountCode(Flat(g), code) == 0) &&
    (code == Code.G ==> selected.Some? && CountCode(Flat(g), Code.G) < 2 && GuildTypeLeft(g))
  }

  /** The label a new building gets: the chosen guild type for a Guild (a
      choice that is not a guild type falls back to plain G), else its code. */
  function NewLabel(code: Code, selected: Option<Label>): (lbl: Label)
    requires code == Code.G ==> selected.Some?
    ensures code != Code.G ==> lbl == CodeLabel(code)
    ensures code == Code.G ==> lbl.GuildLabel? || lbl == CodeLabel(Code.G)
    ensures code == Code.G && selected.value.GuildLabel? ==> lbl == selected.value
  {
    if code == Code.G then
      (if selected.value.GuildLabel? then selected.value else CodeLabel(Code.G))
    else CodeLabel(code)
  }

  /** Placing by hand passes exactly the caps the build options are filtered
      by, given an open plot and, for a Guild, a chosen type. */
  lemma PlacementMatchesOptions(g: Grid<Cell>, r: int, c: int, code: Code, selected: Option<Label>)
    requires IsRect(g) && InGrid(g, (r, c))
    ensures CanPlace(g, r, c, code, selected) <==>
      IsOpen(g[r][c]) && (code == Code.G ==> selected.Some?) && AllowedOnBoard(code, g)
  {
    GuildAllowedByCount(g);
    var used := GuildLabelsIn(Flat(g));
    var all := {GuildLabel(GF), GuildLabel(GQ), GuildLabel(GW), GuildLabel(GM)};
    if CountCode(Flat(g), Code.G) < 2 && !GuildTypeLeft(g) {
      GuildLabelsBounded(Flat(g));
      assert |all| == 4;
      SubsetCard(all, used);
    }
  }

  // ----- the Springhouse boost -----

  /** A building the Springhouse may boost: built, not forfeited, and still
      needing workers once its current boost is taken off. */
  predicate NeedsBoost(cell: Cell) {
    cell.building.Some? && !cell.forfeited &&
    Max0(RuleOf(cell.building.value).requirement - cell.springBoost) > 0
  }

  /** The plots among `ns` that may be boosted, in order. */
  function SpringOptions(g: Grid<Cell>, ns: seq<Pos>): (opts: seq<Pos>)
    requires IsRect(g) && AllInGrid(g, ns)
    ensures |opts| <= |ns|
    ensures forall p :: p in opts <==> p in ns && NeedsBoost(g[p.0][p.1])
  {
    if ns == [] then []
    else
      assert ns[0] in ns;
      var rest := SpringOptions(g, ns[1..]);
      if NeedsBoost(g[ns[0].0][ns[0].1]) then [ns[0]] + rest else rest
  }

  /** The boost after one more Springhouse: one more, capped at the
      building's requirement. */
  function Boosted(cell: Cell): (boost: int)
    requires cell.building.Some?
    ensures boost <= Max0(RuleOf(cell.building.value).requirement) && boost <= cell.springBoost + 1
    ensures boost == Max0(RuleOf(cell.building.value).requirement) || boost == cell.springBoost + 1
  {
    var maxBoost := Max0(RuleOf(cell.building.value).requirement);
    if maxBoost < cell.springBoost + 1 then maxBoost else cell.springBoost + 1
  }

  /** Boosting a building that needs it lowers its effective requirement by
      exactly one worker. */
  lemma BoostLowersRequirement(cell: Cell)
    requires NeedsBoost(cell) && cell.springBoost >= 0
    ensures EffectiveRequirement(cell.(springBoost := Boosted(cell))) == EffectiveRequirement(cell) - 1
  {
  }

  /** The Springhouse at `source` waits for one of `options` to be chosen. */
  datatype SpringTarget = SpringTarget(source: Pos, options: seq<Pos>)

  // ----- the activation phase -----

  /** Where the auto-forfeit leaves a plot's activation-forfeit flag, given
      the workers on it and the population available on its nodes: unbuilt
      and forfeited plots are left alone; a building needing nobody more is
      cleared; otherwise it is flagged when the game is being finished, or
      when its nodes cannot supply what it still needs. */
  function ForfeitCell(cell: Cell, filled: int, availableAdj: int, finalize: bool): (cell': Cell)
    ensures cell' == cell.(activationForfeit := cell'.activationForfeit)
    ensures cell.building.None? || cell.forfeited ==> cell' == cell
  {
    if cell.building.None? || cell.forfeited then cell
    else
      var req := Max0(RuleOf(cell.building.value).requirement) - Max0(cell.springBoost);
      if req <= 0 then cell.(activationForfeit := false)
      else
        var remaining := Max0(req - filled);
        if remaining <= 0 then cell.(activationForfeit := false)
        else if (if finalize then remaining > 0 else availableAdj < remaining) then cell.(activationForfeit := true)
        else if !finalize then cell.(activationForfeit := false)
        else cell
  }

  /** While the phase runs, a building is flagged exactly when the population
      left on its nodes is less than what it still needs. */
  lemma TrialForfeit(cell: Cell, filled: int, availableAdj: int)
    requires cell.building.Some? && !cell.forfeited && filled >= 0
    ensures ForfeitCell(cell, filled, availableAdj, false).activationForfeit <==>
      filled < EffectiveRequirement(cell) && availableAdj < EffectiveRequirement(cell) - filled
  {
  }

  /** When the phase is finished, a building is flagged exactly when the
      activation map, reading the worker grid, would call it inactive. */
  lemma FinalForfeitIsInactivity(cell: Cell, r: int, c: int, pop: Grid<int>, workers: Grid<int>, availableAdj: int)
    requires cell.building.Some? && !cell.forfeited
    ensures ForfeitCell(cell, Max0(At(workers, r, c)), availableAdj, true).activationForfeit <==>
      !CellActive(cell.(activationForfeit := false), r, c, pop, Some(workers))
  {
  }

  /** A built plot's worker need as the allocation step reckons it (the boost
      taken off without clamping it at 0). */
  function AllocationNeed(cell: Cell): (need: nat)
    ensures cell.building.Some? && cell.springBoost >= 0 ==> need == EffectiveRequirement(cell)
  {
    if cell.building.None? then 0 else Max0(RuleOf(cell.building.value).requirement - cell.springBoost)
  }

  class Game {
    const board: array2<Cell>
    const populationNodes: array2<int>
    var populationAvailable: array2?<int>
    var workerAllocations: array2?<int>
    var selectedGuildType: Option<Label>
    var pendingSpringhouseTarget: Option<SpringTarget>
    var activationMode: bool
    var activationComplete: bool

    /** The activation grids exist together; the available population has
        the shape of the population nodes and the allocations the shape of
        the board, and the three integer grids are distinct arrays. */
    predicate Valid()
      reads this
    {
      (populationAvailable == null <==> workerAllocations == null) &&
      (populationAvailable != null ==>
        populationAvailable.Length0 == populationNodes.Length0 &&
        populationAvailable.Length1 == populationNodes.Length1 &&
        populationAvailable != populationNodes) &&
      (workerAllocations != null ==>
        workerAllocations.Length0 == board.Length0 &&
        workerAllocations.Length1 == board.Length1 &&
        workerAllocations != populationNodes && workerAllocations != populationAvailable)
    }

    /** A new game: the 5 x 5 sheet with every plot empty, a 4 x 4 lattice of
        empty population nodes, and no activation phase yet. */
    constructor()
      ensures Valid()
      ensures board.Length0 == 5 && board.Length1 == 5
      ensures forall i, j :: 0 <= i < 5 && 0 <= j < 5 ==> board[i, j] == EmptyCell
      ensures populationNodes.Length0 == 4 && populationNodes.Length1 == 4
      ensures forall i, j :: 0 <= i < 4 && 0 <= j < 4 ==> populationNodes[i, j] == 0
      ensures populationAvailable == null && workerAllocations == null
      ensures selectedGuildType == None && pendingSpringhouseTarget == None
      ensures !activationMode && !activationComplete
      ensures fresh(board) && fresh(populationNodes)
    {
      board := new Cell[5, 5]((i, j) => EmptyCell);
      populationNodes := new int[4, 4]((i, j) => 0);
      populationAvailable := null;
      workerAllocations := null;
      selectedGuildType := None;
      pendingSpringhouseTarget := None;
      activationMode := false;
      activationComplete := false;
    }

    /** The population nodes touching plot (r, c). */
    function NodesForCell(r: int, c: int): (ns: seq<Pos>)
      ensures |ns| <= 4
      ensures forall p :: p in ns ==> InRange(p, populationNodes.Length0, populationNodes.Length1)
      ensures forall p :: p in ns <==>
        InRange(p, populationNodes.Length0, populationNodes.Length1) &&
        (p.0 == r - 1 || p.0 == r) && (p.1 == c - 1 || p.1 == c)
    {
      Board.NodesForCell(r, c, populationNodes.Length0, populationNodes.Length1)
    }

    /** The plots orthogonally next to (r, c). */
    function AdjacentCells(r: int, c: int): (ns: seq<Pos>)
      ensures |ns| <= 4
      ensures forall p :: p in ns <==>
        InRange(p, board.Length0, board.Length1) &&
        ((p.0 == r && (p.1 == c - 1 || p.1 == c + 1)) || (p.1 == c && (p.0 == r - 1 || p.0 == r + 1)))
    {
      OrthNeighbors(r, c, board.Length0, board.Length1)
    }

    /** Every plot is built or forfeited. */
    function IsBoardFull(): (full: bool)
      reads board
      ensures full <==> IsFull(Snapshot(board))
    {
      forall i, j :: 0 <= i < board.Length0 && 0 <= j < board.Length1 ==>
        board[i, j].building.Some? || board[i, j].forfeited
    }

    /** Places `code` at (r, c) when the placement checks pass, labelling it;
        a Springhouse then looks for a neighbour to boost. The guild choice
        is used up. */
    method PlaceBuilding(r: int, c: int, code: Code) returns (placed: bool)
      requires Valid() && 0 <= r < board.Length0 && 0 <= c < board.Length1
      modifies this, board
      ensures Valid()
      ensures populationAvailable == old(populationAvailable) && workerAllocations == old(workerAllocations)
      ensures activationMode == old(activationMode) && activationComplete == old(activationComplete)
      ensures placed == CanPlace(old(Snapshot(board)), r, c, code, old(selectedGuildType))
      ensures forall i, j :: 0 <= i < board.Length0 && 0 <= j < board.Length1 && (i, j) != (r, c) ==>
        board[i, j] == old(board[i, j])
      ensures !placed ==>
        board[r, c] == old(board[r, c]) && selectedGuildType == old(selectedGuildType) &&
        pendingSpringhouseTarget == old(pendingSpringhouseTarget)
      ensures placed ==>
        board[r, c] == old(board[r, c]).(building := Some(code),
                                         buildingLabel := Some(NewLabel(code, old(selectedGuildType)))) &&
        selectedGuildType == None
      ensures placed && code != Code.S ==> pendingSpringhouseTarget == old(pendingSpringhouseTarget)
      ensures placed && code == Code.S ==>
        var opts := SpringOptions(Snapshot(board), AdjacentCells(r, c));
        pendingSpringhouseTarget == (if |opts| > 0 then Some(SpringTarget((r, c), opts)) else old(pendingSpringhouseTarget))
    {
      placed := CheckPlacement(r, c, code);
      if !placed {
        return;
      }
      var newLabel := NewLabel(code, selectedGuildType);
      board[r, c] := board[r, c].(building := Some(code), buildingLabel := Some(newLabel));
      selectedGuildType := None;
      if code == Code.S {
        var pending := HandleSpringhouseTargeting(r, c);
      }
    }

    /** The placement checks, in order: the plot is free and not forfeited,
        a once-per-game building is not yet on the board, and a Guild has a
        type chosen, fewer than two Guilds stand and some type is unused. */
    method CheckPlacement(r: int, c: int, code: Code) returns (ok: bool)
      requires 0 <= r < board.Length0 && 0 <= c < board.Length1
      ensures ok == CanPlace(Snapshot(board), r, c, code, selectedGuildType)
    {
      var g := Snapshot(board);
      var cell := board[r, c];
      if cell.building.Some? || cell.forfeited {
        return false;
      }
      if OncePerGame(code) && CountCode(Flat(g), code) > 0 {
        return false;
      }
      if code == Code.G {
        if selectedGuildType.None? {
          return false;
        }
        if CountCode(Flat(g), Code.G) >= 2 {
          return false;
        }
        if !GuildTypeLeft(g) {
          return false;
        }
      }
      ok := true;
    }

    /** Offers the Springhouse at (r, c) the neighbours it may boost; with
        none, its effect goes unused. */
    method HandleSpringhouseTargeting(r: int, c: int) returns (pending: bool)
      modifies this
      ensures populationAvailable == old(populationAvailable) && workerAllocations == old(workerAllocations)
      ensures selectedGuildType == old(selectedGuildType)
      ensures activationMode == old(activationMode) && activationComplete == old(activationComplete)
      ensures var opts := SpringOptions(Snapshot(board), AdjacentCells(r, c));
        (pending <==> |opts| > 0) &&
        pendingSpringhouseTarget == (if pending then Some(SpringTarget((r, c), opts)) else old(pendingSpringhouseTarget))
    {
      var options := SpringOptions(Snapshot(board), AdjacentCells(r, c));
      if |options| == 0 {
        return false;
      }
      pendingSpringhouseTarget := Some(SpringTarget((r, c), options));
      pending := true;
    }

    /** Lowers the worker requirement of the built, non-forfeited building at
        (tr, tc) by one, never below zero, and ends the Springhouse choice;
        any other plot is refused. */
    method ApplySpringhouseBoost(tr: int, tc: int) returns (boosted: bool)
      requires 0 <= tr < board.Length0 && 0 <= tc < board.Length1
      modifies this, board
      ensures populationAvailable == old(populationAvailable) && workerAllocations == old(workerAllocations)
      ensures selectedGuildType == old(selectedGuildType)
      ensures activationMode == old(activationMode) && activationComplete == old(activationComplete)
      ensures boosted <==> old(board[tr, tc]).building.Some? && !old(board[tr, tc]).forfeited
      ensures forall i, j :: 0 <= i < board.Length0 && 0 <= j < board.Length1 && (i, j) != (tr, tc) ==>
        board[i, j] == old(board[i, j])
      ensures boosted ==>
        board[tr, tc] == old(board[tr, tc]).(springBoost := Boosted(old(board[tr, tc]))) &&
        pendingSpringhouseTarget == None
      ensures !boosted ==>
        board[tr, tc] == old(board[tr, tc]) && pendingSpringhouseTarget == old(pendingSpringhouseTarget)
    {
      var target := board[tr, tc];
      if target.building.None? || target.forfeited {
        return false;
      }
      board[tr, tc] := target.(springBoost := Boosted(target));
      pendingSpringhouseTarget := None;
      boosted := true;
    }

    /** The workers on plot (r, c), negative entries read as none. */
    function Filled(r: int, c: int): int
      requires Valid() && workerAllocations != null
      requires 0 <= r < board.Length0 && 0 <= c < board.Length1
      reads this, workerAllocations
    {
      Max0(workerAllocations[r, c])
    }

    /** The population still available on the nodes touching (r, c). */
    function AvailableAround(r: int, c: int): int
      requires Valid() && populationAvailable != null
      reads this, populationAvailable
    {
      SumAt(Snapshot(populationAvailable), NodesForCell(r, c))
    }

    /** Starts the activation phase: the available population is a copy of
        the population nodes, nobody is allocated yet, every
        activation-forfeit flag is cleared, and then the buildings the
        population cannot fill are flagged. Nothing happens while the phase
        is already running. */
    method EnterActivationMode()
      requires Valid()
      modifies this, board
      ensures Valid()
      ensures selectedGuildType == old(selectedGuildType) && pendingSpringhouseTarget == old(pendingSpringhouseTarget)
      ensures old(activationMode) ==>
        activationMode == old(activationMode) && activationComplete == old(activationComplete) &&
        populationAvailable == old(populationAvailable) && workerAllocations == old(workerAllocations) &&
        forall i, j :: 0 <= i < board.Length0 && 0 <= j < board.Length1 ==> board[i, j] == old(board[i, j])
      ensures !old(activationMode) ==>
        activationMode && !activationComplete &&
        populationAvailable != null && workerAllocations != null &&
        fresh(populationAvailable) && fresh(workerAllocations) &&
        Snapshot(populationAvailable) == old(Snapshot(populationNodes)) &&
        (forall i, j :: 0 <= i < board.Length0 && 0 <= j < board.Length1 ==> workerAllocations[i, j] == 0) &&
        forall i, j :: 0 <= i < board.Length0 && 0 <= j < board.Length1 ==>
          board[i, j] == ForfeitCell(old(board[i, j]).(activationForfeit := false), 0, AvailableAround(i, j), false)
      ensures !old(activationMode) ==> AllocationsWithinNeed()
    {
      if activationMode {
        return;
      }
      activationMode := true;
      activationComplete := false;
      var available := CopyGrid(populationNodes);
      populationAvailable := available;
      workerAllocations := new int[board.Length0, board.Length1]((i, j) => 0);
      ClearActivationForfeits();
      ghost var cleared := Snapshot(board);
      AutoForfeitUnfillable(false);
      assert Snapshot(populationAvailable) == old(Snapshot(populationNodes));
      forall i, j | 0 <= i < board.Length0 && 0 <= j < board.Length1
        ensures board[i, j] == ForfeitCell(old(board[i, j]).(activationForfeit := false), 0, AvailableAround(i, j), false)
      {
        assert cleared[i][j] == old(board[i, j]).(activationForfeit := false);
      }
    }

    /** A fresh copy of a grid of population counts. */
    static method CopyGrid(a: array2<int>) returns (b: array2<int>)
      ensures fresh(b)
      ensures b.Length0 == a.Length0 && b.Length1 == a.Length1
      ensures Snapshot(b) == Snapshot(a)
    {
      b := new int[a.Length0, a.Length1];
      for i := 0 to a.Length0
        invariant forall i', j :: 0 <= i' < i && 0 <= j < a.Length1 ==> b[i', j] == a[i', j]
      {
        for j := 0 to a.Length1
          invariant forall i', j' :: 0 <= i' < i && 0 <= j' < a.Length1 ==> b[i', j'] == a[i', j']
          invariant forall j' :: 0 <= j' < j ==> b[i, j'] == a[i, j']
        {
          b[i, j] := a[i, j];
        }
      }
      assert forall i :: 0 <= i < a.Length0 ==> Snapshot(b)[i] == Snapshot(a)[i];
    }

    /** Clears the activation-forfeit flag of every plot. */
    method ClearActivationForfeits()
      modifies board
      ensures forall i, j :: 0 <= i < board.Length0 && 0 <= j < board.Length1 ==>
        board[i, j] == old(board[i, j]).(activationForfeit := false)
    {
      for i := 0 to board.Length0
        invariant forall i', j :: 0 <= i' < board.Length0 && 0 <= j < board.Length1 ==>
          board[i', j] == if i' < i then old(board[i', j]).(activationForfeit := false) else old(board[i', j])
      {
        for j := 0 to board.Length1
          invariant forall i', j' :: 0 <= i' < board.Length0 && 0 <= j' < board.Length1 ==>
            board[i', j'] == if i' < i || (i' == i && j' < j) then old(board[i', j']).(activationForfeit := false)
                             else old(board[i', j'])
        {
          board[i, j] := board[i, j].(activationForfeit := false);
        }
      }
    }

    /** Flags the buildings that cannot be activated: when finishing, every
        building still short of workers; otherwise those whose nodes cannot
        supply what they still need, clearing the rest. Before the
        activation phase it does nothing. */
    method AutoForfeitUnfillable(finalize: bool)
      requires Valid()
      modifies board
      ensures populationAvailable == null ==>
        forall i, j :: 0 <= i < board.Length0 && 0 <= j < board.Length1 ==> board[i, j] == old(board[i, j])
      ensures populationAvailable != null ==>
        forall i, j :: 0 <= i < board.Length0 && 0 <= j < board.Length1 ==>
          board[i, j] == ForfeitCell(old(board[i, j]), Filled(i, j), AvailableAround(i, j), finalize)
    {
      if populationAvailable == null || workerAllocations == null {
        return;
      }
      for r := 0 to board.Length0
        invariant forall i, j :: 0 <= i < board.Length0 && 0 <= j < board.Length1 ==>
          board[i, j] == if i < r then ForfeitCell(old(board[i, j]), Filled(i, j), AvailableAround(i, j), finalize)
                         else old(board[i, j])
      {
        for c := 0 to board.Length1
          invariant forall i, j :: 0 <= i < board.Length0 && 0 <= j < board.Length1 ==>
            board[i, j] == if i < r || (i == r && j < c)
                           then ForfeitCell(old(board[i, j]), Filled(i, j), AvailableAround(i, j), finalize)
                           else old(board[i, j])
        {
          var cell := board[r, c];
          var availableAdj := AvailableAround(r, c);
          var filled := Max0(workerAllocations[r, c]);
          board[r, c] := ForfeitStep(cell, filled, availableAdj, finalize);
        }
      }
    }

    /** One plot of the auto-forfeit, decided as the scan does. */
    static method ForfeitStep(cell: Cell, filled: int, availableAdj: int, finalize: bool) returns (cell': Cell)
      ensures cell' == ForfeitCell(cell, filled, availableAdj, finalize)
    {
      cell' := cell;
      if cell.building.None? || cell.forfeited {
        return;
      }
      var req := Max0(RuleOf(cell.building.value).requirement) - Max0(cell.springBoost);
      if req <= 0 {
        return cell.(activationForfeit := false);
      }
      var remaining := Max0(req - filled);
      if remaining <= 0 {
        return cell.(activationForfeit := false);
      }
      var shouldForfeit := if finalize then remaining > 0 else availableAdj < remaining;
      if shouldForfeit {
        cell' := cell.(activationForfeit := true);
      } else if !finalize {
        cell' := cell.(activationForfeit := false);
      }
    }

    /** No plot holds more workers than it needs. */
    ghost predicate AllocationsWithinNeed()
      requires Valid()
      reads this, board, workerAllocations
    {
      workerAllocations != null ==>
        forall i, j :: 0 <= i < board.Length0 && 0 <= j < board.Length1 ==>
          0 <= workerAllocations[i, j] <= AllocationNeed(board[i, j])
    }

    /** The people on the nodes plus the people at work. */
    ghost function PeopleInPlay(): int
      requires Valid() && populationAvailable != null && workerAllocations != null
      reads this, populationAvailable, workerAllocations
    {
      GridSum(Snapshot(populationAvailable)) + GridSum(Snapshot(workerAllocations))
    }

    /** Whether one worker may move from node (pr, pc) to plot (br, bc): the
        plot holds a building that is not forfeited either way, the node has
        population left and touches the plot, and the building is still
        short of workers. */
    predicate CanAllocate(pr: int, pc: int, br: int, bc: int)
      requires Valid()
      reads this, board, populationAvailable, workerAllocations
    {
      populationAvailable != null &&
      0 <= br < board.Length0 && 0 <= bc < board.Length1 &&
      var cell := board[br, bc];
      cell.building.Some? && !cell.forfeited && !cell.activationForfeit &&
      At(Snapshot(populationAvailable), pr, pc) > 0 &&
      (pr, pc) in NodesForCell(br, bc) &&
      Max0(workerAllocations[br, bc]) < AllocationNeed(cell)
    }

    /** Moves one worker from node (pr, pc) to the building at (br, bc) when
        that is allowed; otherwise nothing changes. */
    method AllocateWorkersFromPop(pr: int, pc: int, br: int, bc: int) returns (moved: bool)
      requires Valid()
      modifies populationAvailable, workerAllocations
      ensures moved == old(CanAllocate(pr, pc, br, bc))
      ensures !moved ==>
        (populationAvailable != null ==> Snapshot(populationAvailable) == old(Snapshot(populationAvailable))) &&
        (workerAllocations != null ==> Snapshot(workerAllocations) == old(Snapshot(workerAllocations)))
      ensures moved ==>
        populationAvailable != null && workerAllocations != null &&
        InRange((pr, pc), populationAvailable.Length0, populationAvailable.Length1) &&
        Snapshot(populationAvailable) ==
          old(Snapshot(populationAvailable)[pr := Snapshot(populationAvailable)[pr][pc := populationAvailable[pr, pc] - 1]]) &&
        Snapshot(workerAllocations) ==
          old(Snapshot(workerAllocations)[br := Snapshot(workerAllocations)[br][bc := Max0(workerAllocations[br, bc]) + 1]])
      ensures moved && old(workerAllocations[br, bc]) >= 0 ==> PeopleInPlay() == old(PeopleInPlay())
      ensures moved && old(AllocationsWithinNeed()) ==> PeopleInPlay() == old(PeopleInPlay())
      ensures old(AllocationsWithinNeed()) ==> AllocationsWithinNeed()
    {
      if !(0 <= br < board.Length0 && 0 <= bc < board.Length1) {
        return false;
      }
      var cell := board[br, bc];
      if cell.building.None? || cell.forfeited || cell.activationForfeit {
        return false;
      }
      if populationAvailable == null {
        return false;
      }
      var available := At(Snapshot(populationAvailable), pr, pc);
      if available <= 0 {
        return false;
      }
      if (pr, pc) !in NodesForCell(br, bc) {
        return false;
      }
      var req: int := AllocationNeed(cell);
      var filled: int := Max0(workerAllocations[br, bc]);
      var remaining := Max0(req - filled);
      if remaining <= 0 {
        return false;
      }
      Transfer(pr, pc, br, bc);
      moved := true;
    }

    /** Takes one person off node (pr, pc) and adds one worker to plot
        (br, bc), a negative allocation counting as none. */
    method Transfer(pr: int, pc: int, br: int, bc: int)
      requires Valid() && populationAvailable != null && workerAllocations != null
      requires InRange((pr, pc), populationAvailable.Length0, populationAvailable.Length1)
      requires 0 <= br < board.Length0 && 0 <= bc < board.Length1
      requires populationAvailable[pr, pc] > 0
      modifies populationAvailable, workerAllocations
      ensures Snapshot(populationAvailable) ==
        old(Snapshot(populationAvailable)[pr := Snapshot(populationAvailable)[pr][pc := populationAvailable[pr, pc] - 1]])
      ensures Snapshot(workerAllocations) ==
        old(Snapshot(workerAllocations)[br := Snapshot(workerAllocations)[br][bc := Max0(workerAllocations[br, bc]) + 1]])
      ensures workerAllocations[br, bc] == Max0(old(workerAllocations[br, bc])) + 1
      ensures forall i, j :: 0 <= i < board.Length0 && 0 <= j < board.Length1 && (i, j) != (br, bc) ==>
        workerAllocations[i, j] == old(workerAllocations[i, j])
      ensures old(workerAllocations[br, bc]) >= 0 ==> PeopleInPlay() == old(PeopleInPlay())
    {
      var available := populationAvailable[pr, pc];
      var filled := Max0(workerAllocations[br, bc]);
      ghost var avail0 := Snapshot(populationAvailable);
      ghost var alloc0 := Snapshot(workerAllocations);
      populationAvailable[pr, pc] := Max0(available - 1);
      workerAllocations[br, bc] := filled + 1;
      OneEntryChanged(populationAvailable, avail0, pr, pc);
      OneEntryChanged(workerAllocations, alloc0, br, bc);
      GridSumUpdate(avail0, pr, pc, available - 1);
      GridSumUpdate(alloc0, br, bc, filled + 1);
    }
  }

  /** An array that differs from a grid in one entry has the grid with that
      entry updated as its snapshot. */
  lemma OneEntryChanged(a: array2<int>, g: Grid<int>, r: int, c: int)
    requires 0 <= r < a.Length0 && 0 <= c < a.Length1
    requires |g| == a.Length0 && forall i :: 0 <= i < |g| ==> |g[i]| == a.Length1
    requires forall i, j :: 0 <= i < a.Length0 && 0 <= j < a.Length1 && (i, j) != (r, c) ==> a[i, j] == g[i][j]
    ensures Snapshot(a) == g[r := g[r][c := a[r, c]]]
  {
    var s := Snapshot(a);
    var t := g[r := g[r][c := a[r, c]]];
    forall i | 0 <= i < |s| ensures s[i] == t[i] {
      assert |s[i]| == |t[i]|;
    }
  }
}
