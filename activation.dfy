/** Activation: whether each built plot has the workers (or, before workers
    are assigned, the surrounding population) its building requires. */
module Activation {
  import opened Board

  function Max0(x: int): nat { if x < 0 then 0 else x }

  /** The workers a building still needs: its requirement less the
      Springhouse boost on the plot, never below 0. */
  function EffectiveRequirement(cell: Cell): (req: int)
    requires cell.building.Some?
    ensures 0 <= req <= RuleOf(cell.building.value).requirement
    ensures cell.springBoost <= 0 ==> req == RuleOf(cell.building.value).requirement
    ensures cell.springBoost >= RuleOf(cell.building.value).requirement ==> req == 0
    ensures 0 <= cell.springBoost <= RuleOf(cell.building.value).requirement ==>
      req == RuleOf(cell.building.value).requirement - cell.springBoost
  {
    Max0(RuleOf(cell.building.value).requirement - Max0(cell.springBoost))
  }

  /** The plot at (r, c) is active: it holds a building, is not forfeited in
      either way, and its requirement is met, by the workers assigned to it
      when there is a worker grid, else by the population around it. */
  predicate CellActive(cell: Cell, r: int, c: int, pop: Grid<int>, workers: Option<Grid<int>>) {
    if cell.building.None? || cell.forfeited || cell.activationForfeit then false
    else
      var req := EffectiveRequirement(cell);
      if req <= 0 then true
      else if workers.Some? then Max0(At(workers.value, r, c)) >= req
      else PopAround(r, c, pop) >= req
  }

  /** The activation of every plot of the board. */
  function ActivationMapOf(board: Grid<Cell>, pop: Grid<int>, workers: Option<Grid<int>>): (act: map<Pos, bool>)
    requires IsRect(board)
    ensures act.Keys == Cells(board)
  {
    map p | p in Cells(board) :: CellActive(board[p.0][p.1], p.0, p.1, pop, workers)
  }

  /** A plot counts as active only when the map says so. */
  predicate IsActive(act: map<Pos, bool>, p: Pos) {
    p in act && act[p]
  }

  /** Computes the activation of every plot, row by row. */
  method ComputeActivationMap(board: Grid<Cell>, pop: Grid<int>, workers: Option<Grid<int>>)
    returns (act: map<Pos, bool>)
    requires IsRect(board)
    ensures act == ActivationMapOf(board, pop, workers)
  {
    act := map[];
    for r := 0 to Rows(board)
      invariant act.Keys == CellsBefore(board, r, 0)
      invariant forall p :: p in act ==> act[p] == CellActive(board[p.0][p.1], p.0, p.1, pop, workers)
    {
      for c := 0 to Cols(board)
        invariant act.Keys == CellsBefore(board, r, c)
        invariant forall p :: p in act ==> act[p] == CellActive(board[p.0][p.1], p.0, p.1, pop, workers)
      {
        NextCell(board, r, c);
        var active := ActivationAt(board[r][c], r, c, pop, workers);
        act := act[(r, c) := active];
      }
      EndOfRow(board, r);
    }
    AllVisited(board);
  }

  lemma NextCell<X>(g: Grid<X>, r: int, c: int)
    requires 0 <= r < Rows(g) && 0 <= c < Cols(g)
    ensures CellsBefore(g, r, c + 1) == CellsBefore(g, r, c) + {(r, c)}
  {
  }

  lemma EndOfRow<X>(g: Grid<X>, r: int)
    ensures CellsBefore(g, r, Cols(g)) == CellsBefore(g, r + 1, 0)
  {
  }

  lemma AllVisited<X>(g: Grid<X>)
    ensures CellsBefore(g, Rows(g), 0) == Cells(g)
  {
  }

  /** The activation of one plot, decided as the scan does. */
  method ActivationAt(cell: Cell, r: int, c: int, pop: Grid<int>, workers: Option<Grid<int>>) returns (active: bool)
    ensures active == CellActive(cell, r, c, pop, workers)
  {
    if cell.building.None? || cell.forfeited || cell.activationForfeit {
      return false;
    }
    var springBoost := Max0(cell.springBoost);
    var req := Max0(RuleOf(cell.building.value).requirement - springBoost);
    if req <= 0 {
      return true;
    }
    if workers.Some? {
      var staffed := Max0(At(workers.value, r, c));
      active := staffed >= req;
    } else {
      active := PopAround(r, c, pop) >= req;
    }
  }

  /** Only a built plot that is not forfeited can be active. */
  lemma ActiveIsBuilt(board: Grid<Cell>, pop: Grid<int>, workers: Option<Grid<int>>, p: Pos)
    requires IsRect(board)
    requires IsActive(ActivationMapOf(board, pop, workers), p)
    ensures InGrid(board, p)
    ensures board[p.0][p.1].building.Some? && !board[p.0][p.1].forfeited && !board[p.0][p.1].activationForfeit
  {
  }

  /** Cottages and Springhouses need nobody: built and not forfeited, they
      are active. */
  lemma NoRequirementAlwaysActive(cell: Cell, r: int, c: int, pop: Grid<int>, workers: Option<Grid<int>>)
    requires cell.building == Some(Code.C) || cell.building == Some(Code.S)
    requires !cell.forfeited && !cell.activationForfeit
    ensures CellActive(cell, r, c, pop, workers)
  {
  }

  /** A larger Springhouse boost never deactivates a plot. */
  lemma BoostKeepsActive(cell: Cell, r: int, c: int, pop: Grid<int>, workers: Option<Grid<int>>, boost: int)
    requires cell.springBoost <= boost
    requires CellActive(cell, r, c, pop, workers)
    ensures CellActive(cell.(springBoost := boost), r, c, pop, workers)
  {
  }

  /** More workers on a plot never deactivate it. */
  lemma MoreWorkersKeepActive(cell: Cell, r: int, c: int, pop: Grid<int>, workers: Grid<int>, workers': Grid<int>)
    requires At(workers, r, c) <= At(workers', r, c)
    requires CellActive(cell, r, c, pop, Some(workers))
    ensures CellActive(cell, r, c, pop, Some(workers'))
  {
  }
}
