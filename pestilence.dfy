/** Pestilence: the section of the board the numbered dice strike, and the
    open plots of that section that may be hit. */
module Pestilence {
  import opened Board
  import opened Dice

  /** The five overlapping sections of the player sheet. */
  datatype Section = Forest | Sea | Mountain | Marsh | Centre

  /** The sections in the order the assignment table lists them. */
  const SectionOrder: seq<Section> := [Forest, Sea, Mountain, Marsh, Centre]

  /** The dice sums that strike each section. */
  function Assignment(s: Section): seq<int> {
    match s
    case Forest => [2, 3]
    case Sea => [4, 5]
    case Mountain => [7, 8]
    case Marsh => [9, 10]
    case Centre => [6]
  }

  /** The sections the plot (r, c) of a rows x cols board lies in: the
      centre is the fixed block of rows and columns 1 to 3; the forest is
      the first two rows, the marsh the last two, the mountains the first two
      columns, the sea the last two. */
  function CellSections(r: int, c: int, rows: int, cols: int): (s: set<Section>)
    ensures Centre in s <==> 1 <= r <= 3 && 1 <= c <= 3
    ensures Forest in s <==> r <= 1
    ensures Marsh in s <==> r >= rows - 2
    ensures Mountain in s <==> c <= 1
    ensures Sea in s <==> c >= cols - 2
    ensures rows >= 4 ==> !(Forest in s && Marsh in s)
    ensures cols >= 4 ==> !(Mountain in s && Sea in s)
  {
    (if 1 <= r <= 3 && 1 <= c <= 3 then {Centre} else {}) +
    (if r <= 1 then {Forest} else {}) +
    (if r >= rows - 2 then {Marsh} else {}) +
    (if c <= 1 then {Mountain} else {}) +
    (if c >= cols - 2 then {Sea} else {})
  }

  /** On the standard 5 x 5 sheet every plot lies in some section, and the
      forest and the marsh never meet. */
  lemma FiveByFiveCovered(r: int, c: int)
    requires 0 <= r < 5 && 0 <= c < 5
    ensures CellSections(r, c, 5, 5) != {}
    ensures !(Forest in CellSections(r, c, 5, 5) && Marsh in CellSections(r, c, 5, 5))
  {
    if 1 <= r <= 3 && 1 <= c <= 3 {
      assert Centre in CellSections(r, c, 5, 5);
    } else if r <= 1 {
      assert Forest in CellSections(r, c, 5, 5);
    } else if r >= 3 {
      assert Marsh in CellSections(r, c, 5, 5);
    } else {
      assert Mountain in CellSections(r, c, 5, 5) || Sea in CellSections(r, c, 5, 5);
    }
  }

  /** The first section of `order` whose assignment lists the sum. */
  function FirstListing(sum: int, order: seq<Section>): (s: Option<Section>)
    ensures s.Some? ==> s.value in order && sum in Assignment(s.value)
    ensures s.None? ==> forall t :: t in order ==> sum !in Assignment(t)
  {
    if order == [] then None
    else if sum in Assignment(order[0]) then Some(order[0])
    else FirstListing(sum, order[1..])
  }

  /** The section a dice sum strikes: 6 is the centre, otherwise the first
      section listing the sum, and none for a sum no section lists. */
  function SectionForSum(sum: int): (s: Option<Section>)
    ensures s.Some? <==> 2 <= sum <= 10
    ensures s.Some? ==> sum in Assignment(s.value)
  {
    if sum == 6 then Some(Centre)
    else
      var s := FirstListing(sum, SectionOrder);
      assert SectionOrder[0] == Forest && SectionOrder[1] == Sea && SectionOrder[2] == Mountain && SectionOrder[3] == Marsh;
      assert s.None? ==> sum !in Assignment(Forest) + Assignment(Sea) + Assignment(Mountain) + Assignment(Marsh);
      assert s.Some? ==> sum in Assignment(Forest) + Assignment(Sea) + Assignment(Mountain) + Assignment(Marsh) + Assignment(Centre);
      s
  }

  /** Every sum a section lists strikes that section: the assignments do not
      overlap. */
  lemma {:induction false} SectionOfAssignedSum(s: Section, sum: int)
    requires sum in Assignment(s)
    ensures SectionForSum(sum) == Some(s)
  {
    match s
    case Forest => assert SectionForSum(sum) == Some(Forest);
    case Sea => assert sum !in Assignment(Forest);
    case Mountain => assert sum !in Assignment(Forest) && sum !in Assignment(Sea);
    case Marsh =>
      assert sum !in Assignment(Forest) && sum !in Assignment(Sea) && sum !in Assignment(Mountain);
    case Centre => assert sum == 6;
  }

  /** Dice whose label starts with N are the numbered dice. */
  predicate IsNumbered(d: Die) {
    |d.dieLabel| > 0 && d.dieLabel[0] == 'N'
  }

  /** A die's number, or 0 when it has none. */
  function ValueOrZero(d: Die): int {
    if d.resolved.Some? then d.resolved.value else 0
  }

  /** The sum of the numbered dice, added up left to right. With die faces
      showing 1 to 5 it is at most 5 per die. */
  function NumberedSum(dice: seq<Die>): (sum: int)
    ensures (forall i :: 0 <= i < |dice| && IsNumbered(dice[i]) ==> 0 <= ValueOrZero(dice[i]) <= 5) ==>
      0 <= sum <= 5 * |dice|
    ensures (forall i :: 0 <= i < |dice| ==> !IsNumbered(dice[i])) ==> sum == 0
  {
    if dice == [] then 0
    else
      var last := dice[|dice| - 1];
      NumberedSum(dice[..|dice| - 1]) + (if IsNumbered(last) then ValueOrZero(last) else 0)
  }

  /** The dice whose label starts with N, in order. */
  function NumberedDice(dice: seq<Die>): (ns: seq<Die>)
    ensures forall d :: d in ns <==> d in dice && IsNumbered(d)
  {
    if dice == [] then []
    else (if IsNumbered(dice[0]) then [dice[0]] else []) + NumberedDice(dice[1..])
  }

  /** The resolved numbers of the given dice added up, 0 for a die with none. */
  function SumResolved(ds: seq<Die>): int {
    if ds == [] then 0 else ValueOrZero(ds[0]) + SumResolved(ds[1..])
  }

  /** One die counts its number when it is numbered and nothing otherwise. */
  lemma NumberedSumSingle(d: Die)
    ensures NumberedSum([d]) == if IsNumbered(d) then ValueOrZero(d) else 0
  {
    assert [d][..0] == [];
  }

  /** The sum splits over any division of the dice. */
  lemma {:induction false} NumberedSumAppend(a: seq<Die>, b: seq<Die>)
    ensures NumberedSum(a + b) == NumberedSum(a) + NumberedSum(b)
    decreases |b|
  {
    if b == [] {
      assert a + b == a;
    } else {
      var last := b[|b| - 1];
      assert (a + b)[..|a + b| - 1] == a + b[..|b| - 1];
      assert (a + b)[|a + b| - 1] == last;
      NumberedSumAppend(a, b[..|b| - 1]);
    }
  }

  /** The sum is that of the resolved numbers of the numbered dice: the
      filter and then the reduction the pestilence roll performs. */
  lemma {:induction false} NumberedSumIsFilterReduce(dice: seq<Die>)
    ensures NumberedSum(dice) == SumResolved(NumberedDice(dice))
  {
    if dice != [] {
      assert dice == [dice[0]] + dice[1..];
      NumberedSumAppend([dice[0]], dice[1..]);
      NumberedSumSingle(dice[0]);
      NumberedSumIsFilterReduce(dice[1..]);
      if IsNumbered(dice[0]) {
        assert NumberedDice(dice) == [dice[0]] + NumberedDice(dice[1..]);
        assert ([dice[0]] + NumberedDice(dice[1..]))[1..] == NumberedDice(dice[1..]);
      } else {
        assert NumberedDice(dice) == NumberedDice(dice[1..]);
      }
    }
  }

  /** The pestilence roll: the sum, the section it strikes, and the plots
      that may be hit. */
  datatype PestilenceInfo = PestilenceInfo(sum: int, section: Option<Section>, targetCells: seq<Pos>)

  /** An open plot of the board inside the section. */
  predicate IsTarget(board: Grid<Cell>, section: Section, p: Pos)
    requires IsRect(board)
  {
    InGrid(board, p) && IsOpen(board[p.0][p.1]) && section in CellSections(p.0, p.1, Rows(board), Cols(board))
  }

  /** Works out the pestilence roll; the targets are listed in row-major
      order, each once. */
  method ComputePestilenceInfo(dice: seq<Die>, board: Grid<Cell>) returns (info: PestilenceInfo)
    requires IsRect(board)
    ensures info.sum == NumberedSum(dice)
    ensures info.section == SectionForSum(info.sum)
    ensures info.section.None? ==> info.targetCells == []
    ensures info.section.Some? ==> forall p :: p in info.targetCells <==> IsTarget(board, info.section.value, p)
    ensures StrictlyIncreasing(info.targetCells)
  {
    var sum := NumberedSum(dice);
    var section := SectionForSum(sum);
    var targets: seq<Pos> := [];
    if section.Some? {
      for r := 0 to Rows(board)
        invariant forall p :: p in targets <==> p in CellsBefore(board, r, 0) && IsTarget(board, section.value, p)
        invariant StrictlyIncreasing(targets)
        invariant forall i :: 0 <= i < |targets| ==> targets[i].0 < r
      {
        targets := TargetsInRow(board, section.value, r, targets);
      }
    }
    info := PestilenceInfo(sum, section, targets);
  }

  /** Appends the targets of row r, left to right. */
  method TargetsInRow(board: Grid<Cell>, sec: Section, r: int, targets: seq<Pos>) returns (targets': seq<Pos>)
    requires IsRect(board) && 0 <= r < Rows(board)
    requires forall p :: p in targets <==> p in CellsBefore(board, r, 0) && IsTarget(board, sec, p)
    requires StrictlyIncreasing(targets)
    requires forall i :: 0 <= i < |targets| ==> targets[i].0 < r
    ensures forall p :: p in targets' <==> p in CellsBefore(board, r + 1, 0) && IsTarget(board, sec, p)
    ensures StrictlyIncreasing(targets')
    ensures forall i :: 0 <= i < |targets'| ==> targets'[i].0 < r + 1
  {
    targets' := targets;
    for c := 0 to Cols(board)
      invariant forall p :: p in targets' <==> p in CellsBefore(board, r, c) && IsTarget(board, sec, p)
      invariant StrictlyIncreasing(targets')
      invariant forall i :: 0 <= i < |targets'| ==> LexLess(targets'[i], (r, c))
    {
      var cell := board[r][c];
      if cell.building.None? && !cell.forfeited &&
         sec in CellSections(r, c, Rows(board), Cols(board)) {
        targets' := targets' + [(r, c)];
      }
    }
  }
}
