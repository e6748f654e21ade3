/** The shared vocabulary of the rules engine: building codes and their rule
    table, board cells, rectangular grids, and the neighbour helpers that
    both the scoring rules and the activation phase use. */
module Board {

  datatype Option<T> = None | Some(value: T)

  /** Building codes: Cottage, Farm, Quarry, Windmill, Market, Springhouse,
      Townhall, University, Almshouse, Guild. */
  datatype Code = C | F | Q | W | M | S | T | U | A | G

  datatype Category = Basic | Advanced | Special

  /** Worker requirement, base score and category of a building. */
  datatype Rule = Rule(requirement: int, base: int, category: Category)

  function RuleOf(code: Code): (rule: Rule)
    ensures rule.requirement >= 0 && rule.base >= 0
    ensures rule.category == Advanced <==> code in {T, U, A, G}
    ensures rule.category == Special <==> code in {C, S}
  {
    match code
    case C => Rule(0, 0, Special)
    case F => Rule(2, 3, Basic)
    case Q => Rule(2, 3, Basic)
    case W => Rule(2, 3, Basic)
    case M => Rule(3, 0, Basic)
    case S => Rule(0, 0, Special)
    case T => Rule(4, 5, Advanced)
    case U => Rule(3, 0, Advanced)
    case A => Rule(2, 0, Advanced)
    case G => Rule(4, 0, Advanced)
  }

  /** The four guild subtypes; each one targets a basic building. */
  datatype GuildType = GF | GQ | GW | GM

  /** A cell's label, already upper-cased: a guild subtype, or a plain code. */
  datatype Label = GuildLabel(guild: GuildType) | CodeLabel(code: Code)

  datatype Cell = Cell(
    building: Option<Code>,
    buildingLabel: Option<Label>,
    forfeited: bool,
    activationForfeit: bool,
    springBoost: int)

  const EmptyCell := Cell(None, None, false, false, 0)

  /** A (row, column) coordinate, used in place of the "r,c" string keys. */
  type Pos = (int, int)

  /** A grid given as a sequence of rows. */
  type Grid<T> = seq<seq<T>>

  function Rows<X>(g: Grid<X>): nat { |g| }

  /** The width is read from the first row, or 0 for a grid without rows. */
  function Cols<X>(g: Grid<X>): nat { if |g| == 0 then 0 else |g[0]| }

  predicate IsRect<X>(g: Grid<X>) {
    forall i :: 0 <= i < |g| ==> |g[i]| == Cols(g)
  }

  predicate InRange(p: Pos, rows: int, cols: int) {
    0 <= p.0 < rows && 0 <= p.1 < cols
  }

  predicate InGrid<X>(g: Grid<X>, p: Pos) {
    InRange(p, Rows(g), Cols(g))
  }

  /** Every position of the grid. */
  function Cells<X>(g: Grid<X>): set<Pos> {
    set r, c | 0 <= r < Rows(g) && 0 <= c < Cols(g) :: (r, c)
  }

  /** The positions a row-major scan visits before (r, c). */
  function CellsBefore<X>(g: Grid<X>, r: int, c: int): set<Pos> {
    set i, j | 0 <= i < Rows(g) && 0 <= j < Cols(g) && (i < r || (i == r && j < c)) :: (i, j)
  }

  /** Reading a grid entry, where a missing entry reads as 0. */
  function At(g: Grid<int>, r: int, c: int): (v: int)
    ensures 0 <= r < |g| && 0 <= c < |g[r]| ==> v == g[r][c]
    ensures !(0 <= r < |g| && 0 <= c < |g[r]|) ==> v == 0
  {
    if 0 <= r < |g| && 0 <= c < |g[r]| then g[r][c] else 0
  }

  predicate IsOpen(cell: Cell) {
    cell.building.None? && !cell.forfeited
  }

  /** Every cell is built or forfeited. */
  predicate IsFull(board: Grid<Cell>) {
    forall r, c :: 0 <= r < |board| && 0 <= c < |board[r]| ==> !IsOpen(board[r][c])
  }

  function Flat<X>(g: Grid<X>): seq<X> {
    if g == [] then [] else g[0] + Flat(g[1..])
  }

  function SeqSum(s: seq<int>): int {
    if s == [] then 0 else s[0] + SeqSum(s[1..])
  }

  /** The sum of every entry of a grid. */
  function GridSum(g: Grid<int>): int {
    SeqSum(Flat(g))
  }

  lemma {:induction false} SeqSumAppend(a: seq<int>, b: seq<int>)
    ensures SeqSum(a + b) == SeqSum(a) + SeqSum(b)
  {
    if a == [] {
      assert a + b == b;
    } else {
      assert (a + b)[0] == a[0] && (a + b)[1..] == a[1..] + b;
      SeqSumAppend(a[1..], b);
    }
  }

  lemma {:induction false} SeqSumUpdate(s: seq<int>, i: int, v: int)
    requires 0 <= i < |s|
    ensures SeqSum(s[i := v]) == SeqSum(s) - s[i] + v
  {
    if i > 0 {
      assert s[i := v][1..] == s[1..][i - 1 := v];
      SeqSumUpdate(s[1..], i - 1, v);
    }
  }

  /** Changing one entry of a grid changes its sum by exactly the difference. */
  lemma {:induction false} GridSumUpdate(g: Grid<int>, r: int, c: int, v: int)
    requires 0 <= r < |g| && 0 <= c < |g[r]|
    ensures GridSum(g[r := g[r][c := v]]) == GridSum(g) - g[r][c] + v
  {
    var g' := g[r := g[r][c := v]];
    if r == 0 {
      assert g'[1..] == g[1..];
      SeqSumAppend(g'[0], Flat(g[1..]));
      SeqSumAppend(g[0], Flat(g[1..]));
      SeqSumUpdate(g[0], c, v);
    } else {
      assert g'[1..] == g[1..][r - 1 := g[r][c := v]];
      GridSumUpdate(g[1..], r - 1, c, v);
      SeqSumAppend(g[0], Flat(g'[1..]));
      SeqSumAppend(g[0], Flat(g[1..]));
    }
  }

  /** The candidates of `cands` that lie inside a rows x cols grid, in order. */
  function KeepInRange(cands: seq<Pos>, rows: int, cols: int): (r: seq<Pos>)
    ensures |r| <= |cands|
    ensures forall p :: p in r <==> p in cands && InRange(p, rows, cols)
    ensures (forall i, j :: 0 <= i < j < |cands| ==> cands[i] != cands[j]) ==>
      forall i, j :: 0 <= i < j < |r| ==> r[i] != r[j]
  {
    if cands == [] then []
    else if InRange(cands[0], rows, cols) then [cands[0]] + KeepInRange(cands[1..], rows, cols)
    else KeepInRange(cands[1..], rows, cols)
  }

  /** The orthogonal neighbours of (r, c) inside a rows x cols board:
      up, down, left, right, dropping those outside. */
  function OrthNeighbors(r: int, c: int, rows: int, cols: int): (ns: seq<Pos>)
    ensures |ns| <= 4
    ensures forall p :: p in ns <==>
      InRange(p, rows, cols) &&
      ((p.0 == r && (p.1 == c - 1 || p.1 == c + 1)) || (p.1 == c && (p.0 == r - 1 || p.0 == r + 1)))
  {
    KeepInRange([(r - 1, c), (r + 1, c), (r, c - 1), (r, c + 1)], rows, cols)
  }

  /** The up-to-four lattice nodes touching cell (r, c) in a nodeRows x
      nodeCols population grid: (r-1,c-1), (r-1,c), (r,c-1), (r,c). */
  function NodesForCell(r: int, c: int, nodeRows: int, nodeCols: int): (ns: seq<Pos>)
    ensures |ns| <= 4
    ensures forall p :: p in ns <==>
      InRange(p, nodeRows, nodeCols) && (p.0 == r - 1 || p.0 == r) && (p.1 == c - 1 || p.1 == c)
    ensures forall i, j :: 0 <= i < j < |ns| ==> ns[i] != ns[j]
  {
    KeepInRange([(r - 1, c - 1), (r - 1, c), (r, c - 1), (r, c)], nodeRows, nodeCols)
  }

  /** The sum of the grid entries at the given positions (missing ones read as 0). */
  function SumAt(g: Grid<int>, ps: seq<Pos>): int {
    if ps == [] then 0 else At(g, ps[0].0, ps[0].1) + SumAt(g, ps[1..])
  }

  /** The population on the lattice nodes touching cell (r, c). */
  function PopAround(r: int, c: int, pop: Grid<int>): (n: int)
    ensures |pop| == 0 ==> n == 0
    ensures r < 0 || c < 0 || r > Rows(pop) || c > Cols(pop) ==> n == 0
  {
    if |pop| == 0 then 0 else SumAt(pop, NodesForCell(r, c, Rows(pop), Cols(pop)))
  }

  lemma {:induction false} SumAtNonNegative(g: Grid<int>, ps: seq<Pos>)
    requires forall i, j :: 0 <= i < |g| && 0 <= j < |g[i]| ==> g[i][j] >= 0
    ensures SumAt(g, ps) >= 0
  {
    if ps != [] {
      SumAtNonNegative(g, ps[1..]);
    }
  }

  /** A grid with no negative entry has no negative total around any plot. */
  lemma PopAroundNonNegative(r: int, c: int, pop: Grid<int>)
    requires forall i, j :: 0 <= i < |pop| && 0 <= j < |pop[i]| ==> pop[i][j] >= 0
    ensures PopAround(r, c, pop) >= 0
  {
    if |pop| > 0 {
      SumAtNonNegative(pop, NodesForCell(r, c, Rows(pop), Cols(pop)));
    }
  }

  // ----- board scans -----

  predicate HasCode(cell: Cell, code: Code) {
    cell.building == Some(code)
  }

  predicate AllInGrid<X>(g: Grid<X>, ps: seq<Pos>) {
    forall p :: p in ps ==> InGrid(g, p)
  }

  /** Some cell at the given positions holds `code`. */
  predicate AnyWithCode(board: Grid<Cell>, ps: seq<Pos>, code: Code)
    requires IsRect(board) && AllInGrid(board, ps)
    ensures AnyWithCode(board, ps, code) <==> CountWithCode(board, ps, code) > 0
  {
    exists p :: p in ps && HasCode(board[p.0][p.1], code)
  }

  /** How many of the given positions hold `code`. */
  function CountWithCode(board: Grid<Cell>, ps: seq<Pos>, code: Code): (n: nat)
    requires IsRect(board) && AllInGrid(board, ps)
    ensures n <= |ps|
    ensures n > 0 <==> exists p :: p in ps && HasCode(board[p.0][p.1], code)
    ensures n == |ps| <==> forall p :: p in ps ==> HasCode(board[p.0][p.1], code)
  {
    if ps == [] then 0
    else
      assert ps[0] in ps;
      (if HasCode(board[ps[0].0][ps[0].1], code) then 1 else 0) + CountWithCode(board, ps[1..], code)
  }

  /** How many of the given positions are (truly) forfeited. */
  function CountForfeitedAt(board: Grid<Cell>, ps: seq<Pos>): (n: nat)
    requires IsRect(board) && AllInGrid(board, ps)
    ensures n <= |ps|
    ensures n > 0 <==> exists p :: p in ps && board[p.0][p.1].forfeited
    ensures n == |ps| <==> forall p :: p in ps ==> board[p.0][p.1].forfeited
  {
    if ps == [] then 0
    else
      assert ps[0] in ps;
      (if board[ps[0].0][ps[0].1].forfeited then 1 else 0) + CountForfeitedAt(board, ps[1..])
  }

  function Neighbors(board: Grid<Cell>, r: int, c: int): (ns: seq<Pos>)
    ensures AllInGrid(board, ns) && |ns| <= 4
  {
    OrthNeighbors(r, c, Rows(board), Cols(board))
  }

  /** Another cell of row r or column c holds `code`. */
  predicate RowColHas(board: Grid<Cell>, r: int, c: int, code: Code)
    requires IsRect(board) && InGrid(board, (r, c))
  {
    (exists k :: 0 <= k < Cols(board) && k != c && HasCode(board[r][k], code)) ||
    (exists k :: 0 <= k < Rows(board) && k != r && HasCode(board[k][c], code))
  }

  /** The row-or-column scan finds `code` exactly when some other plot that
      shares a row or a column with (r, c) holds it. */
  lemma RowColHasShared(board: Grid<Cell>, r: int, c: int, code: Code)
    requires IsRect(board) && InGrid(board, (r, c))
    ensures RowColHas(board, r, c, code) <==>
      exists p :: p in Cells(board) && p != (r, c) && (p.0 == r || p.1 == c) && HasCode(board[p.0][p.1], code)
  {
    if exists k :: 0 <= k < Cols(board) && k != c && HasCode(board[r][k], code) {
      var k :| 0 <= k < Cols(board) && k != c && HasCode(board[r][k], code);
      assert (r, k) in Cells(board);
    } else if exists k :: 0 <= k < Rows(board) && k != r && HasCode(board[k][c], code) {
      var k :| 0 <= k < Rows(board) && k != r && HasCode(board[k][c], code);
      assert (k, c) in Cells(board);
    } else {
      forall p | p in Cells(board) && p != (r, c) && (p.0 == r || p.1 == c)
        ensures !HasCode(board[p.0][p.1], code)
      {
        if p.0 == r {
          assert p.1 != c;
        } else {
          assert p.0 != r;
        }
      }
    }
  }

  /** The number of cells in a list that hold `code`. */
  function CountCode(cells: seq<Cell>, code: Code): (n: nat)
    ensures n <= |cells|
  {
    if cells == [] then 0
    else (if HasCode(cells[0], code) then 1 else 0) + CountCode(cells[1..], code)
  }

  /** The number of cells in a list that are forfeited or activation-forfeited. */
  function CountForfeits(cells: seq<Cell>): (n: nat)
    ensures n <= |cells|
  {
    if cells == [] then 0
    else (if cells[0].forfeited || cells[0].activationForfeit then 1 else 0) + CountForfeits(cells[1..])
  }

  lemma {:induction false} CountCodeAppend(a: seq<Cell>, b: seq<Cell>, code: Code)
    ensures CountCode(a + b, code) == CountCode(a, code) + CountCode(b, code)
  {
    if a == [] {
      assert a + b == b;
    } else {
      assert (a + b)[0] == a[0] && (a + b)[1..] == a[1..] + b;
      CountCodeAppend(a[1..], b, code);
    }
  }

  /** A code occurs in the flattened board exactly when some cell holds it. */
  lemma {:induction false} InFlat(board: Grid<Cell>, code: Code)
    requires IsRect(board)
    ensures CountCode(Flat(board), code) > 0 <==>
      exists r, c :: 0 <= r < Rows(board) && 0 <= c < Cols(board) && HasCode(board[r][c], code)
  {
    if board != [] {
      var rest := board[1..];
      assert IsRect(rest) by {
        if |rest| > 0 { assert Cols(rest) == |board[1]| == Cols(board); }
      }
      InFlat(rest, code);
      CountCodeAppend(board[0], Flat(rest), code);
      CountInRow(board[0], code);
      if CountCode(Flat(board), code) > 0 {
        if CountCode(board[0], code) > 0 {
          var k :| 0 <= k < |board[0]| && HasCode(board[0][k], code);
          assert HasCode(board[0][k], code);
        } else {
          var r, c :| 0 <= r < Rows(rest) && 0 <= c < Cols(rest) && HasCode(rest[r][c], code);
          assert HasCode(board[r + 1][c], code);
        }
      } else {
        forall r, c | 0 <= r < Rows(board) && 0 <= c < Cols(board)
          ensures !HasCode(board[r][c], code)
        {
          if r > 0 {
            assert board[r] == rest[r - 1];
          }
        }
      }
    }
  }

  lemma {:induction false} CountInRow(row: seq<Cell>, code: Code)
    ensures CountCode(row, code) > 0 <==> exists k :: 0 <= k < |row| && HasCode(row[k], code)
  {
    if row != [] {
      CountInRow(row[1..], code);
      if CountCode(row[1..], code) > 0 {
        var k :| 0 <= k < |row[1..]| && HasCode(row[1..][k], code);
        assert HasCode(row[k + 1], code);
      }
      forall k | 1 <= k < |row| && HasCode(row[k], code)
        ensures CountCode(row[1..], code) > 0
      {
        assert HasCode(row[1..][k - 1], code);
      }
    }
  }

  /** A subset is no larger than the set holding it. */
  lemma {:induction false} SubsetCard<X>(s: set<X>, t: set<X>)
    requires s <= t
    ensures |s| <= |t|
  {
    if s != {} {
      var x :| x in s;
      SubsetCard(s - {x}, t - {x});
    }
  }
}
