/** Population: vagrants (population beyond the housing) and placing
    population on a node of the population lattice. */
module Population {
  import opened Board

  /** The population the housing cannot hold, never negative. */
  function CalcVagrants(pop: int, housing: int): (v: int)
    ensures v >= 0 && v >= pop - housing
    ensures v == 0 || v == pop - housing
  {
    if pop - housing < 0 then 0 else pop - housing
  }

  /** Nobody is a vagrant exactly when the housing holds everybody. */
  lemma NoVagrantsWhenHoused(pop: int, housing: int)
    ensures CalcVagrants(pop, housing) == 0 <==> pop <= housing
  {
  }

  /** The outcome of a placement: how many were placed, and the grid after. */
  datatype Placement = Placement(placed: int, grid: Grid<int>)

  /** Places up to `amount` people, at most `cap` (a negative cap counts as
      0), on node (row, col). A node outside the grid, or one that already
      holds population, takes nobody and the grid is unchanged; otherwise
      the node gains what was placed and nothing else changes. */
  function AllocatePopulationToNode(popGrid: Grid<int>, row: int, col: int, amount: int, cap: int): (res: Placement)
    requires IsRect(popGrid)
    ensures res.placed >= 0
    ensures cap >= 0 ==> res.placed <= cap
    ensures cap < 0 ==> res.placed == 0
    ensures !InGrid(popGrid, (row, col)) || popGrid[row][col] > 0 ==> res == Placement(0, popGrid)
    ensures InGrid(popGrid, (row, col)) && popGrid[row][col] <= 0 ==>
      (0 <= amount <= cap ==> res.placed == amount) &&
      (0 <= cap <= amount ==> res.placed == cap) &&
      (amount <= 0 ==> res.placed == 0) &&
      res.grid == popGrid[row := popGrid[row][col := popGrid[row][col] + res.placed]]
  {
    if row < 0 || col < 0 then Placement(0, popGrid)
    else if row >= Rows(popGrid) || col >= Cols(popGrid) then Placement(0, popGrid)
    else
      var current := popGrid[row][col];
      if current > 0 then Placement(0, popGrid)
      else
        var space := if cap < 0 then 0 else cap;
        var placed := if amount < space then amount else space;
        var placed := if placed < 0 then 0 else placed;
        Placement(placed, popGrid[row := popGrid[row][col := current + placed]])
  }

  /** A placement keeps the grid's shape and adds exactly what it placed to
      the grid's total. */
  lemma AllocationConserves(popGrid: Grid<int>, row: int, col: int, amount: int, cap: int)
    requires IsRect(popGrid)
    ensures var res := AllocatePopulationToNode(popGrid, row, col, amount, cap);
      IsRect(res.grid) && Rows(res.grid) == Rows(popGrid) && Cols(res.grid) == Cols(popGrid) &&
      GridSum(res.grid) == GridSum(popGrid) + res.placed
  {
    var res := AllocatePopulationToNode(popGrid, row, col, amount, cap);
    if InGrid(popGrid, (row, col)) && popGrid[row][col] <= 0 {
      GridSumUpdate(popGrid, row, col, popGrid[row][col] + res.placed);
      assert IsRect(res.grid) by {
        assert forall i :: 0 <= i < |res.grid| ==> |res.grid[i]| == |popGrid[i]|;
      }
    }
  }

  /** Once a node holds population it takes nobody more (population counts
      are never negative). */
  lemma NodeUsedOnce(popGrid: Grid<int>, row: int, col: int, amount: int, cap: int, amount': int, cap': int)
    requires IsRect(popGrid) && At(popGrid, row, col) >= 0
    requires AllocatePopulationToNode(popGrid, row, col, amount, cap).placed > 0
    ensures var first := AllocatePopulationToNode(popGrid, row, col, amount, cap);
      IsRect(first.grid) &&
      AllocatePopulationToNode(first.grid, row, col, amount', cap') == Placement(0, first.grid)
  {
    AllocationConserves(popGrid, row, col, amount, cap);
  }
}
