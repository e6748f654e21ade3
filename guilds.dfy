/** Guild conditions: groups of orthogonally connected active buildings of
    one kind (found by flood fill), active buildings on the board's edge and
    in its centre, and the 15-point bonus of each active guild whose
    condition holds. */
module Guilds {
  import opened Board
  import opened Activation

  /** Plot p holds an active `code` building. */
  predicate Matches(board: Grid<Cell>, act: map<Pos, bool>, code: Code, p: Pos)
    requires IsRect(board)
  {
    InGrid(board, p) && HasCode(board[p.0][p.1], code) && IsActive(act, p)
  }

  /** q is an orthogonal neighbour of p. */
  predicate Adjacent(p: Pos, q: Pos) {
    (q.0 == p.0 && (q.1 == p.1 - 1 || q.1 == p.1 + 1)) || (q.1 == p.1 && (q.0 == p.0 - 1 || q.0 == p.0 + 1))
  }

  /** A walk through matching plots, each step to an orthogonal neighbour. */
  ghost predicate IsWalk(board: Grid<Cell>, act: map<Pos, bool>, code: Code, w: seq<Pos>)
    requires IsRect(board)
  {
    |w| > 0 &&
    (forall k :: 0 <= k < |w| ==> Matches(board, act, code, w[k])) &&
    (forall k :: 0 <= k < |w| - 1 ==> Adjacent(w[k], w[k + 1]))
  }

  ghost predicate Connected(board: Grid<Cell>, act: map<Pos, bool>, code: Code, p: Pos, q: Pos)
    requires IsRect(board)
  {
    exists w :: IsWalk(board, act, code, w) && w[0] == p && w[|w| - 1] == q
  }

  /** The contiguous group of matching plots that p belongs to (empty when
      p does not match). */
  ghost function Group(board: Grid<Cell>, act: map<Pos, bool>, code: Code, p: Pos): set<Pos>
    requires IsRect(board)
  {
    set q | q in Cells(board) && Connected(board, act, code, p, q)
  }

  // ----- connectivity -----

  lemma ConnectedRefl(board: Grid<Cell>, act: map<Pos, bool>, code: Code, p: Pos)
    requires IsRect(board) && Matches(board, act, code, p)
    ensures Connected(board, act, code, p, p)
    ensures p in Group(board, act, code, p)
  {
    assert IsWalk(board, act, code, [p]);
  }

  lemma ConnectedEnds(board: Grid<Cell>, act: map<Pos, bool>, code: Code, p: Pos, q: Pos)
    requires IsRect(board) && Connected(board, act, code, p, q)
    ensures Matches(board, act, code, p) && Matches(board, act, code, q)
  {
    var w :| IsWalk(board, act, code, w) && w[0] == p && w[|w| - 1] == q;
  }

  lemma ConnectedStep(board: Grid<Cell>, act: map<Pos, bool>, code: Code, p: Pos, q: Pos, n: Pos)
    requires IsRect(board) && Connected(board, act, code, p, q)
    requires Adjacent(q, n) && Matches(board, act, code, n)
    ensures Connected(board, act, code, p, n)
    ensures n in Group(board, act, code, p)
  {
    var w :| IsWalk(board, act, code, w) && w[0] == p && w[|w| - 1] == q;
    var w' := w + [n];
    assert IsWalk(board, act, code, w');
  }

  lemma ConnectedSym(board: Grid<Cell>, act: map<Pos, bool>, code: Code, p: Pos, q: Pos)
    requires IsRect(board) && Connected(board, act, code, p, q)
    ensures Connected(board, act, code, q, p)
  {
    var w :| IsWalk(board, act, code, w) && w[0] == p && w[|w| - 1] == q;
    var rev := seq(|w|, k requires 0 <= k < |w| => w[|w| - 1 - k]);
    forall k | 0 <= k < |rev| - 1 ensures Adjacent(rev[k], rev[k + 1]) {
      var j := |w| - 2 - k;
      assert Adjacent(w[j], w[j + 1]);
    }
    assert IsWalk(board, act, code, rev);
  }

  lemma ConnectedTrans(board: Grid<Cell>, act: map<Pos, bool>, code: Code, p: Pos, q: Pos, s: Pos)
    requires IsRect(board) && Connected(board, act, code, p, q) && Connected(board, act, code, q, s)
    ensures Connected(board, act, code, p, s)
  {
    var w1 :| IsWalk(board, act, code, w1) && w1[0] == p && w1[|w1| - 1] == q;
    var w2 :| IsWalk(board, act, code, w2) && w2[0] == q && w2[|w2| - 1] == s;
    var w := w1 + w2[1..];
    forall k | 0 <= k < |w| - 1 ensures Adjacent(w[k], w[k + 1]) {
      if k < |w1| - 1 {
        assert Adjacent(w1[k], w1[k + 1]);
      } else {
        var j := k - |w1| + 1;
        assert w[k] == w2[j] && w[k + 1] == w2[j + 1];
        assert Adjacent(w2[j], w2[j + 1]);
      }
    }
    assert IsWalk(board, act, code, w);
  }

  /** Plots of one group have the same group. */
  lemma GroupSame(board: Grid<Cell>, act: map<Pos, bool>, code: Code, p: Pos, q: Pos)
    requires IsRect(board) && q in Group(board, act, code, p)
    ensures Group(board, act, code, q) == Group(board, act, code, p)
  {
    ConnectedSym(board, act, code, p, q);
    forall s | s in Group(board, act, code, q) ensures s in Group(board, act, code, p) {
      ConnectedTrans(board, act, code, p, q, s);
    }
    forall s | s in Group(board, act, code, p) ensures s in Group(board, act, code, q) {
      ConnectedTrans(board, act, code, q, p, s);
    }
  }

  /** A plot that does not match has no group. */
  lemma GroupOfUnmatched(board: Grid<Cell>, act: map<Pos, bool>, code: Code, p: Pos)
    requires IsRect(board) && !Matches(board, act, code, p)
    ensures Group(board, act, code, p) == {}
  {
    forall q | q in Group(board, act, code, p) ensures false {
      ConnectedEnds(board, act, code, p, q);
    }
  }

  /** A set closed under stepping to matching neighbours holds the whole
      group of each of its plots. */
  ghost predicate Closed(board: Grid<Cell>, act: map<Pos, bool>, code: Code, d: set<Pos>)
    requires IsRect(board)
  {
    forall q, n :: q in d && Adjacent(q, n) && Matches(board, act, code, n) ==> n in d
  }

  lemma {:induction false} WalkStaysInClosed(board: Grid<Cell>, act: map<Pos, bool>, code: Code, d: set<Pos>, w: seq<Pos>, k: nat)
    requires IsRect(board) && Closed(board, act, code, d)
    requires IsWalk(board, act, code, w) && w[0] in d && k < |w|
    ensures w[k] in d
  {
    if k > 0 {
      WalkStaysInClosed(board, act, code, d, w, k - 1);
      assert Adjacent(w[k - 1], w[k]);
    }
  }

  lemma ClosedHoldsGroup(board: Grid<Cell>, act: map<Pos, bool>, code: Code, d: set<Pos>, p: Pos)
    requires IsRect(board) && Closed(board, act, code, d) && p in d
    ensures Group(board, act, code, p) <= d
  {
    forall q | q in Group(board, act, code, p) ensures q in d {
      var w :| IsWalk(board, act, code, w) && w[0] == p && w[|w| - 1] == q;
      WalkStaysInClosed(board, act, code, d, w, |w| - 1);
    }
  }

  // ----- flood fill -----

  function Elems(s: seq<Pos>): set<Pos> {
    set q | q in s
  }

  predicate DistinctPositions(s: seq<Pos>) {
    forall i, j :: 0 <= i < j < |s| ==> s[i] != s[j]
  }

  /** The neighbours in ns that match and are not yet visited. */
  function Fresh(board: Grid<Cell>, act: map<Pos, bool>, code: Code, ns: seq<Pos>, visited: set<Pos>): set<Pos>
    requires IsRect(board)
  {
    set n | n in ns && n !in visited && Matches(board, act, code, n)
  }

  /** Pushes every neighbour in ns that matches and is not yet visited,
      marking it visited. */
  method PushNeighbors(board: Grid<Cell>, act: map<Pos, bool>, code: Code, ns: seq<Pos>,
                       stack: seq<Pos>, visited: set<Pos>)
    returns (stack': seq<Pos>, visited': set<Pos>)
    requires IsRect(board) && AllInGrid(board, ns)
    requires DistinctPositions(stack) && Elems(stack) <= visited
    ensures DistinctPositions(stack') && Elems(stack') <= visited'
    ensures visited' == visited + Fresh(board, act, code, ns, visited)
    ensures Elems(stack') == Elems(stack) + Fresh(board, act, code, ns, visited)
    ensures forall n :: n in ns && Matches(board, act, code, n) ==> n in visited'
  {
    stack', visited' := stack, visited;
    for k := 0 to |ns|
      invariant DistinctPositions(stack') && Elems(stack') <= visited'
      invariant visited' == visited + Fresh(board, act, code, ns[..k], visited)
      invariant Elems(stack') == Elems(stack) + Fresh(board, act, code, ns[..k], visited)
      invariant forall n :: n in ns[..k] && Matches(board, act, code, n) ==> n in visited'
    {
      var n := ns[k];
      FreshStep(board, act, code, ns, k, visited, visited');
      if n !in visited' {
        if HasCode(board[n.0][n.1], code) && IsActive(act, n) {
          PushDistinct(stack', n);
          visited' := visited' + {n};
          stack' := stack' + [n];
        }
      }
    }
    assert ns[..|ns|] == ns;
  }

  /** Looking at one more neighbour adds it to the fresh ones exactly when it
      matches and is not yet visited. */
  lemma FreshStep(board: Grid<Cell>, act: map<Pos, bool>, code: Code, ns: seq<Pos>, k: nat,
                  visited: set<Pos>, visited': set<Pos>)
    requires IsRect(board) && AllInGrid(board, ns) && k < |ns|
    requires visited' == visited + Fresh(board, act, code, ns[..k], visited)
    ensures ns[k] !in visited' && Matches(board, act, code, ns[k]) ==>
      Fresh(board, act, code, ns[..k + 1], visited) == Fresh(board, act, code, ns[..k], visited) + {ns[k]}
    ensures !(ns[k] !in visited' && Matches(board, act, code, ns[k])) ==>
      Fresh(board, act, code, ns[..k + 1], visited) == Fresh(board, act, code, ns[..k], visited)
    ensures ns[k] in ns && InGrid(board, ns[k])
  {
    assert ns[..k + 1] == ns[..k] + [ns[k]];
    assert ns[k] in ns;
  }

  /** Pushing a position not on the stack keeps its entries distinct. */
  lemma PushDistinct(stack: seq<Pos>, n: Pos)
    requires DistinctPositions(stack) && n !in Elems(stack)
    ensures DistinctPositions(stack + [n]) && Elems(stack + [n]) == Elems(stack) + {n}
  {
  }

  /** What the flood fill keeps true: the plots expanded (`done`) and those
      on the stack are disjoint parts of the group, and together with the
      plots visited before they are exactly the visited ones. */
  ghost predicate FloodState(start: Pos, group: set<Pos>,
                             visited: set<Pos>, done: set<Pos>, stack: seq<Pos>, visited': set<Pos>)
  {
    DistinctPositions(stack) &&
    done !! Elems(stack) &&
    visited' == visited + done + Elems(stack) &&
    done + Elems(stack) <= group &&
    start in done + Elems(stack)
  }

  /** Every matching neighbour of an expanded plot has been visited. */
  ghost predicate Expanded(board: Grid<Cell>, act: map<Pos, bool>, code: Code, done: set<Pos>, visited': set<Pos>)
    requires IsRect(board)
  {
    forall q, n :: q in done && Adjacent(q, n) && Matches(board, act, code, n) ==> n in visited'
  }

  /** Marks the group of the matching plot (r, c) as visited and returns
      its size, exploring from a stack of plots still to expand. */
  method Flood(board: Grid<Cell>, act: map<Pos, bool>, r: int, c: int, code: Code, visited: set<Pos>)
    returns (size: nat, visited': set<Pos>)
    requires IsRect(board)
    requires Matches(board, act, code, (r, c))
    requires visited !! Group(board, act, code, (r, c))
    ensures visited' == visited + Group(board, act, code, (r, c))
    ensures size == |Group(board, act, code, (r, c))|
  {
    ghost var group := Group(board, act, code, (r, c));
    ghost var done: set<Pos> := {};
    var stack := [(r, c)];
    visited' := visited + {(r, c)};
    size := 0;
    FloodStarts(board, act, code, (r, c), visited);
    while |stack| > 0
      invariant FloodState((r, c), group, visited, done, stack, visited')
      invariant Expanded(board, act, code, done, visited')
      invariant size == |done|
      decreases |group - done|
    {
      ghost var stack0 := stack;
      ghost var before := done;
      var top := stack[|stack| - 1];
      stack := stack[..|stack| - 1];
      PopKeepsState((r, c), group, visited, before, stack0, visited');
      ShrinkBy(group, before, top);
      done := done + {top};
      size := size + 1;
      var ns := OrthNeighbors(top.0, top.1, Rows(board), Cols(board));
      ghost var mid := visited';
      ghost var stack1 := stack;
      stack, visited' := PushNeighbors(board, act, code, ns, stack, visited');
      PushKeepsState(board, act, code, (r, c), visited, before, top, ns, stack1, stack, mid, visited');
    }
    FloodEnds(board, act, code, (r, c), visited, done, visited');
  }

  lemma FloodStarts(board: Grid<Cell>, act: map<Pos, bool>, code: Code, start: Pos, visited: set<Pos>)
    requires IsRect(board) && Matches(board, act, code, start)
    ensures FloodState(start, Group(board, act, code, start), visited, {}, [start], visited + {start})
    ensures Expanded(board, act, code, {}, visited + {start})
  {
    ConnectedRefl(board, act, code, start);
    assert Elems([start]) == {start};
  }

  /** Popping the top of the stack and counting it as expanded keeps the
      flood state. */
  lemma PopKeepsState(start: Pos, group: set<Pos>,
                      visited: set<Pos>, done: set<Pos>, stack: seq<Pos>, visited': set<Pos>)
    requires |stack| > 0
    requires FloodState(start, group, visited, done, stack, visited')
    ensures var top := stack[|stack| - 1];
      top !in done && top in group &&
      FloodState(start, group, visited, done + {top}, stack[..|stack| - 1], visited')
  {
    var top := stack[|stack| - 1];
    var rest := stack[..|stack| - 1];
    assert stack == rest + [top];
    assert Elems(stack) == Elems(rest) + {top};
  }

  lemma ShrinkBy<T>(a: set<T>, d: set<T>, x: T)
    requires x in a && x !in d
    ensures |a - (d + {x})| < |a - d|
  {
    assert a - d == (a - (d + {x})) + {x};
  }

  /** Pushing the fresh neighbours of the expanded plot keeps the flood
      state, and the plot's matching neighbours are all visited. */
  lemma PushKeepsState(board: Grid<Cell>, act: map<Pos, bool>, code: Code, start: Pos,
                       visited: set<Pos>, before: set<Pos>, top: Pos, ns: seq<Pos>,
                       stack: seq<Pos>, stack': seq<Pos>, mid: set<Pos>, visited': set<Pos>)
    requires IsRect(board)
    requires visited !! Group(board, act, code, start)
    requires top in Group(board, act, code, start)
    requires FloodState(start, Group(board, act, code, start), visited, before + {top}, stack, mid)
    requires Expanded(board, act, code, before, mid)
    requires ns == OrthNeighbors(top.0, top.1, Rows(board), Cols(board))
    requires DistinctPositions(stack')
    requires visited' == mid + Fresh(board, act, code, ns, mid)
    requires Elems(stack') == Elems(stack) + Fresh(board, act, code, ns, mid)
    requires forall n :: n in ns && Matches(board, act, code, n) ==> n in visited'
    ensures FloodState(start, Group(board, act, code, start), visited, before + {top}, stack', visited')
    ensures Expanded(board, act, code, before + {top}, visited')
  {
    var newOnes := Fresh(board, act, code, ns, mid);
    forall n | n in newOnes ensures n in Group(board, act, code, start) {
      ConnectedStep(board, act, code, start, top, n);
    }
  }

  /** When the stack is empty, what was expanded is the whole group. */
  lemma FloodEnds(board: Grid<Cell>, act: map<Pos, bool>, code: Code, start: Pos,
                  visited: set<Pos>, done: set<Pos>, visited': set<Pos>)
    requires IsRect(board)
    requires visited !! Group(board, act, code, start)
    requires FloodState(start, Group(board, act, code, start), visited, done, [], visited')
    requires Expanded(board, act, code, done, visited')
    ensures done == Group(board, act, code, start)
    ensures visited' == visited + Group(board, act, code, start)
  {
    assert Elems([]) == {};
    forall q, n | q in done && Adjacent(q, n) && Matches(board, act, code, n) ensures n in done {
      ConnectedStep(board, act, code, start, q, n);
    }
    ClosedHoldsGroup(board, act, code, done, start);
  }

  /** The positions the scan has passed whose groups are marked visited. */
  ghost predicate Covered(board: Grid<Cell>, act: map<Pos, bool>, code: Code, visited: set<Pos>, r: int, c: int)
    requires IsRect(board)
  {
    forall q :: q in visited <==>
      exists s :: s in CellsBefore(board, r, c) && Matches(board, act, code, s) && q in Group(board, act, code, s)
  }

  /** No group of a matching plot among `within` is larger than best. */
  ghost predicate BoundBy(board: Grid<Cell>, act: map<Pos, bool>, code: Code, within: set<Pos>, best: int)
    requires IsRect(board)
  {
    forall p :: p in within && Matches(board, act, code, p) ==> |Group(board, act, code, p)| <= best
  }

  /** best is 0 or the size of some group. */
  ghost predicate Attained(board: Grid<Cell>, act: map<Pos, bool>, code: Code, best: int)
    requires IsRect(board)
  {
    best == 0 || exists p :: Matches(board, act, code, p) && |Group(board, act, code, p)| == best
  }

  /** The size of the largest group of active `code` buildings (0 when
      there are none). */
  method MaxContiguous(board: Grid<Cell>, act: map<Pos, bool>, code: Code) returns (best: nat)
    requires IsRect(board)
    ensures forall p :: Matches(board, act, code, p) ==> |Group(board, act, code, p)| <= best
    ensures best == 0 || exists p :: Matches(board, act, code, p) && |Group(board, act, code, p)| == best
  {
    var visited: set<Pos> := {};
    best := 0;
    for r := 0 to Rows(board)
      invariant Covered(board, act, code, visited, r, 0)
      invariant BoundBy(board, act, code, CellsBefore(board, r, 0), best)
      invariant Attained(board, act, code, best)
    {
      visited, best := ScanRow(board, act, code, r, visited, best);
    }
    AllVisited(board);
    forall p | Matches(board, act, code, p) ensures |Group(board, act, code, p)| <= best {
      assert p in Cells(board);
    }
  }

  /** The scan of row r, from its first plot to the start of the next row. */
  method ScanRow(board: Grid<Cell>, act: map<Pos, bool>, code: Code, r: int, visited: set<Pos>, best: nat)
    returns (visited': set<Pos>, best': nat)
    requires IsRect(board) && 0 <= r < Rows(board)
    requires Covered(board, act, code, visited, r, 0)
    requires BoundBy(board, act, code, CellsBefore(board, r, 0), best)
    requires Attained(board, act, code, best)
    ensures Covered(board, act, code, visited', r + 1, 0)
    ensures BoundBy(board, act, code, CellsBefore(board, r + 1, 0), best')
    ensures Attained(board, act, code, best')
  {
    visited', best' := visited, best;
    for c := 0 to Cols(board)
      invariant Covered(board, act, code, visited', r, c)
      invariant BoundBy(board, act, code, CellsBefore(board, r, c), best')
      invariant Attained(board, act, code, best')
    {
      NextCell(board, r, c);
      visited', best' := ScanPlot(board, act, code, r, c, visited', best');
    }
    EndOfRow(board, r);
  }

  /** One step of the scan: skips a plot already visited, floods from a
      matching one, passes over any other. */
  method ScanPlot(board: Grid<Cell>, act: map<Pos, bool>, code: Code, r: int, c: int, visited: set<Pos>, best: nat)
    returns (visited': set<Pos>, best': nat)
    requires IsRect(board) && 0 <= r < Rows(board) && 0 <= c < Cols(board)
    requires CellsBefore(board, r, c + 1) == CellsBefore(board, r, c) + {(r, c)}
    requires Covered(board, act, code, visited, r, c)
    requires BoundBy(board, act, code, CellsBefore(board, r, c), best)
    requires Attained(board, act, code, best)
    ensures Covered(board, act, code, visited', r, c + 1)
    ensures BoundBy(board, act, code, CellsBefore(board, r, c + 1), best')
    ensures Attained(board, act, code, best')
  {
    visited', best' := visited, best;
    var here := (r, c);
    if here in visited {
      SkipVisited(board, act, code, visited, r, c, best);
      return;
    }
    if HasCode(board[r][c], code) && IsActive(act, here) {
      visited', best' := FloodPlot(board, act, code, r, c, visited, best);
    } else {
      UnmatchedStep(board, act, code, visited, r, c, best);
    }
  }

  /** Floods from a matching plot not yet visited and keeps the larger of
      the best size so far and the size of its group. */
  method FloodPlot(board: Grid<Cell>, act: map<Pos, bool>, code: Code, r: int, c: int, visited: set<Pos>, best: nat)
    returns (visited': set<Pos>, best': nat)
    requires IsRect(board) && 0 <= r < Rows(board) && 0 <= c < Cols(board)
    requires CellsBefore(board, r, c + 1) == CellsBefore(board, r, c) + {(r, c)}
    requires Covered(board, act, code, visited, r, c)
    requires BoundBy(board, act, code, CellsBefore(board, r, c), best)
    requires Attained(board, act, code, best)
    requires (r, c) !in visited && Matches(board, act, code, (r, c))
    ensures Covered(board, act, code, visited', r, c + 1)
    ensures BoundBy(board, act, code, CellsBefore(board, r, c + 1), best')
    ensures Attained(board, act, code, best')
  {
    UnvisitedIsNew(board, act, code, visited, r, c);
    var size;
    size, visited' := Flood(board, act, r, c, code, visited);
    best' := if best < size then size else best;
    FloodedStep(board, act, code, visited, r, c, best, best');
  }

  lemma FloodedStep(board: Grid<Cell>, act: map<Pos, bool>, code: Code, visited: set<Pos>, r: int, c: int, best: int, best': int)
    requires IsRect(board) && 0 <= r < Rows(board) && 0 <= c < Cols(board)
    requires CellsBefore(board, r, c + 1) == CellsBefore(board, r, c) + {(r, c)}
    requires Covered(board, act, code, visited, r, c)
    requires BoundBy(board, act, code, CellsBefore(board, r, c), best)
    requires Attained(board, act, code, best)
    requires (r, c) !in visited && Matches(board, act, code, (r, c))
    requires var size := |Group(board, act, code, (r, c))|; best' == if best < size then size else best
    ensures Covered(board, act, code, visited + Group(board, act, code, (r, c)), r, c + 1)
    ensures BoundBy(board, act, code, CellsBefore(board, r, c + 1), best')
    ensures Attained(board, act, code, best')
  {
    CoveredFlood(board, act, code, visited, r, c);
    BoundExtends(board, act, code, CellsBefore(board, r, c), (r, c), best, best');
  }

  lemma UnmatchedStep(board: Grid<Cell>, act: map<Pos, bool>, code: Code, visited: set<Pos>, r: int, c: int, best: int)
    requires IsRect(board) && 0 <= r < Rows(board) && 0 <= c < Cols(board)
    requires CellsBefore(board, r, c + 1) == CellsBefore(board, r, c) + {(r, c)}
    requires Covered(board, act, code, visited, r, c)
    requires BoundBy(board, act, code, CellsBefore(board, r, c), best)
    requires (r, c) !in visited && !Matches(board, act, code, (r, c))
    ensures Covered(board, act, code, visited, r, c + 1)
    ensures BoundBy(board, act, code, CellsBefore(board, r, c + 1), best)
  {
    CoveredFlood(board, act, code, visited, r, c);
    GroupOfUnmatched(board, act, code, (r, c));
    assert visited + Group(board, act, code, (r, c)) == visited;
    BoundExtends(board, act, code, CellsBefore(board, r, c), (r, c), best, best);
  }

  lemma SkipVisited(board: Grid<Cell>, act: map<Pos, bool>, code: Code, visited: set<Pos>, r: int, c: int, best: int)
    requires IsRect(board) && 0 <= r < Rows(board) && 0 <= c < Cols(board)
    requires CellsBefore(board, r, c + 1) == CellsBefore(board, r, c) + {(r, c)}
    requires Covered(board, act, code, visited, r, c)
    requires BoundBy(board, act, code, CellsBefore(board, r, c), best)
    requires (r, c) in visited
    ensures Covered(board, act, code, visited, r, c + 1)
    ensures BoundBy(board, act, code, CellsBefore(board, r, c + 1), best)
  {
    var s :| s in CellsBefore(board, r, c) && Matches(board, act, code, s) && (r, c) in Group(board, act, code, s);
    GroupSame(board, act, code, s, (r, c));
    CoveredSkip(board, act, code, visited, r, c);
  }

  lemma UnvisitedIsNew(board: Grid<Cell>, act: map<Pos, bool>, code: Code, visited: set<Pos>, r: int, c: int)
    requires IsRect(board) && 0 <= r < Rows(board) && 0 <= c < Cols(board)
    requires Covered(board, act, code, visited, r, c)
    requires (r, c) !in visited && Matches(board, act, code, (r, c))
    ensures visited !! Group(board, act, code, (r, c))
  {
    var here := (r, c);
    forall q | q in visited && q in Group(board, act, code, here) ensures false {
      var s :| s in CellsBefore(board, r, c) && Matches(board, act, code, s) && q in Group(board, act, code, s);
      GroupSame(board, act, code, s, q);
      GroupSame(board, act, code, here, q);
      ConnectedRefl(board, act, code, here);
    }
  }

  lemma BoundExtends(board: Grid<Cell>, act: map<Pos, bool>, code: Code, within: set<Pos>, p: Pos, best: int, best': int)
    requires IsRect(board)
    requires BoundBy(board, act, code, within, best) && best <= best'
    requires Matches(board, act, code, p) ==> |Group(board, act, code, p)| <= best'
    ensures BoundBy(board, act, code, within + {p}, best')
  {
  }

  /** A plot already visited adds nothing new to the covered groups. */
  lemma CoveredSkip(board: Grid<Cell>, act: map<Pos, bool>, code: Code, visited: set<Pos>, r: int, c: int)
    requires IsRect(board) && 0 <= r < Rows(board) && 0 <= c < Cols(board)
    requires Covered(board, act, code, visited, r, c)
    requires CellsBefore(board, r, c + 1) == CellsBefore(board, r, c) + {(r, c)}
    requires (r, c) in visited
    ensures Covered(board, act, code, visited, r, c + 1)
  {
    var s :| s in CellsBefore(board, r, c) && Matches(board, act, code, s) && (r, c) in Group(board, act, code, s);
    GroupSame(board, act, code, s, (r, c));
  }

  /** Past a plot not yet visited, the covered groups gain its own group. */
  lemma CoveredFlood(board: Grid<Cell>, act: map<Pos, bool>, code: Code, visited: set<Pos>, r: int, c: int)
    requires IsRect(board) && 0 <= r < Rows(board) && 0 <= c < Cols(board)
    requires Covered(board, act, code, visited, r, c)
    requires CellsBefore(board, r, c + 1) == CellsBefore(board, r, c) + {(r, c)}
    requires (r, c) !in visited
    ensures Covered(board, act, code, visited + Group(board, act, code, (r, c)), r, c + 1)
  {
    var here := (r, c);
    var v' := visited + Group(board, act, code, here);
    forall q | q in v'
      ensures exists s :: s in CellsBefore(board, r, c + 1) && Matches(board, act, code, s) && q in Group(board, act, code, s)
    {
      if q !in visited {
        ConnectedEnds(board, act, code, here, q);
        assert here in CellsBefore(board, r, c + 1);
      }
    }
    forall q, s | s in CellsBefore(board, r, c + 1) && Matches(board, act, code, s) && q in Group(board, act, code, s)
      ensures q in v'
    {
      if s != here {
        assert s in CellsBefore(board, r, c);
      }
    }
  }

  // ----- edge and centre counts -----

  predicate OnEdge<X>(g: Grid<X>, p: Pos) {
    p.0 == 0 || p.1 == 0 || p.0 == Rows(g) - 1 || p.1 == Cols(g) - 1
  }

  predicate InCentre<X>(g: Grid<X>, p: Pos) {
    1 <= p.0 < Rows(g) - 1 && 1 <= p.1 < Cols(g) - 1
  }

  /** The active `code` buildings on the board's edge. */
  function EdgeMatches(board: Grid<Cell>, act: map<Pos, bool>, code: Code, within: set<Pos>): set<Pos>
    requires IsRect(board)
  {
    set p | p in within && OnEdge(board, p) && Matches(board, act, code, p)
  }

  /** The active `code` buildings off the board's edge. */
  function CentreMatches(board: Grid<Cell>, act: map<Pos, bool>, code: Code, within: set<Pos>): set<Pos>
    requires IsRect(board)
  {
    set p | p in within && InCentre(board, p) && Matches(board, act, code, p)
  }

  lemma EdgeStep(board: Grid<Cell>, act: map<Pos, bool>, code: Code, within: set<Pos>, p: Pos)
    requires IsRect(board) && p !in within
    ensures |EdgeMatches(board, act, code, within + {p})| ==
      |EdgeMatches(board, act, code, within)| + (if OnEdge(board, p) && Matches(board, act, code, p) then 1 else 0)
  {
    if OnEdge(board, p) && Matches(board, act, code, p) {
      assert EdgeMatches(board, act, code, within + {p}) == EdgeMatches(board, act, code, within) + {p};
    } else {
      assert EdgeMatches(board, act, code, within + {p}) == EdgeMatches(board, act, code, within);
    }
  }

  lemma CentreStep(board: Grid<Cell>, act: map<Pos, bool>, code: Code, within: set<Pos>, p: Pos)
    requires IsRect(board) && p !in within
    ensures |CentreMatches(board, act, code, within + {p})| ==
      |CentreMatches(board, act, code, within)| + (if InCentre(board, p) && Matches(board, act, code, p) then 1 else 0)
  {
    if InCentre(board, p) && Matches(board, act, code, p) {
      assert CentreMatches(board, act, code, within + {p}) == CentreMatches(board, act, code, within) + {p};
    } else {
      assert CentreMatches(board, act, code, within + {p}) == CentreMatches(board, act, code, within);
    }
  }

  /** Only the centre part of a set of plots matters to the centre count. */
  lemma CentrePart(board: Grid<Cell>, act: map<Pos, bool>, code: Code, a: set<Pos>, b: set<Pos>)
    requires IsRect(board)
    requires forall p :: InCentre(board, p) ==> (p in a <==> p in b)
    ensures CentreMatches(board, act, code, a) == CentreMatches(board, act, code, b)
  {
  }

  /** Counts the active `code` buildings on the board's edge. */
  method EdgeCount(board: Grid<Cell>, act: map<Pos, bool>, code: Code) returns (count: nat)
    requires IsRect(board)
    ensures count == |EdgeMatches(board, act, code, Cells(board))|
  {
    count := 0;
    for r := 0 to Rows(board)
      invariant count == |EdgeMatches(board, act, code, CellsBefore(board, r, 0))|
    {
      for c := 0 to Cols(board)
        invariant count == |EdgeMatches(board, act, code, CellsBefore(board, r, c))|
      {
        NextCell(board, r, c);
        EdgeStep(board, act, code, CellsBefore(board, r, c), (r, c));
        if r == 0 || c == 0 || r == Rows(board) - 1 || c == Cols(board) - 1 {
          if HasCode(board[r][c], code) && IsActive(act, (r, c)) {
            count := count + 1;
          }
        }
      }
      EndOfRow(board, r);
    }
    AllVisited(board);
  }

  /** Counts the active `code` buildings off the board's edge. */
  method CenterCount(board: Grid<Cell>, act: map<Pos, bool>, code: Code) returns (count: nat)
    requires IsRect(board)
    ensures count == |CentreMatches(board, act, code, Cells(board))|
  {
    count := 0;
    var r := 1;
    CentrePart(board, act, code, CellsBefore(board, 1, 0), {});
    while r < Rows(board) - 1
      invariant 1 <= r
      invariant count == |CentreMatches(board, act, code, CellsBefore(board, r, 0))|
    {
      var c := 1;
      CentrePart(board, act, code, CellsBefore(board, r, 1), CellsBefore(board, r, 0));
      while c < Cols(board) - 1
        invariant 1 <= c
        invariant count == |CentreMatches(board, act, code, CellsBefore(board, r, c))|
      {
        NextCell(board, r, c);
        CentreStep(board, act, code, CellsBefore(board, r, c), (r, c));
        if HasCode(board[r][c], code) && IsActive(act, (r, c)) {
          count := count + 1;
        }
        c := c + 1;
      }
      CentrePart(board, act, code, CellsBefore(board, r, c), CellsBefore(board, r + 1, 0));
      r := r + 1;
    }
    CentrePart(board, act, code, CellsBefore(board, r, 0), Cells(board));
  }

  // ----- guild conditions and bonuses -----

  /** The building kind a guild's label names (Farm, Quarry, Windmill or
      Market guild); a label naming none gives no target. */
  function GuildTarget(lbl: Option<Label>): (target: Option<Code>)
    ensures target.Some? <==> lbl.Some? && lbl.value.GuildLabel?
    ensures target.Some? ==> target.value in {Code.F, Code.Q, Code.W, Code.M}
  {
    if lbl.Some? && lbl.value.GuildLabel? then
      match lbl.value.guild
      case GF => Some(Code.F)
      case GQ => Some(Code.Q)
      case GW => Some(Code.W)
      case GM => Some(Code.M)
    else None
  }

  /** The guild's condition: a group of at least four active Farms (or
      Quarries), at least four active Windmills on the edge, or at least
      four active Markets in the centre. */
  ghost predicate GuildConditionHolds(board: Grid<Cell>, act: map<Pos, bool>, target: Code)
    requires IsRect(board)
  {
    match target
    case F => exists p :: Matches(board, act, Code.F, p) && |Group(board, act, Code.F, p)| >= 4
    case Q => exists p :: Matches(board, act, Code.Q, p) && |Group(board, act, Code.Q, p)| >= 4
    case W => |EdgeMatches(board, act, Code.W, Cells(board))| >= 4
    case M => |CentreMatches(board, act, Code.M, Cells(board))| >= 4
    case _ => false
  }

  method MeetsGuildCondition(board: Grid<Cell>, act: map<Pos, bool>, target: Code) returns (meets: bool)
    requires IsRect(board)
    ensures meets <==> GuildConditionHolds(board, act, target)
  {
    match target
    case F =>
      var best := MaxContiguous(board, act, Code.F);
      meets := best >= 4;
    case Q =>
      var best := MaxContiguous(board, act, Code.Q);
      meets := best >= 4;
    case W =>
      var count := EdgeCount(board, act, Code.W);
      meets := count >= 4;
    case M =>
      var count := CenterCount(board, act, Code.M);
      meets := count >= 4;
    case _ =>
      meets := false;
  }

  /** An active guild at p whose target's condition holds. */
  ghost predicate Qualifies(board: Grid<Cell>, act: map<Pos, bool>, p: Pos)
    requires IsRect(board)
  {
    InGrid(board, p) && HasCode(board[p.0][p.1], Code.G) && IsActive(act, p) &&
    GuildTarget(board[p.0][p.1].buildingLabel).Some? &&
    GuildConditionHolds(board, act, GuildTarget(board[p.0][p.1].buildingLabel).value)
  }

  ghost function QualifyingGuilds(board: Grid<Cell>, act: map<Pos, bool>, within: set<Pos>): set<Pos>
    requires IsRect(board)
  {
    set p | p in within && Qualifies(board, act, p)
  }

  lemma QualifyingStep(board: Grid<Cell>, act: map<Pos, bool>, within: set<Pos>, p: Pos)
    requires IsRect(board) && p !in within
    ensures |QualifyingGuilds(board, act, within + {p})| ==
      |QualifyingGuilds(board, act, within)| + (if Qualifies(board, act, p) then 1 else 0)
  {
    if Qualifies(board, act, p) {
      assert QualifyingGuilds(board, act, within + {p}) == QualifyingGuilds(board, act, within) + {p};
    } else {
      assert QualifyingGuilds(board, act, within + {p}) == QualifyingGuilds(board, act, within);
    }
  }

  /** 15 points for every active guild whose condition holds. */
  method GuildBonuses(board: Grid<Cell>, act: map<Pos, bool>) returns (bonus: int)
    requires IsRect(board)
    ensures bonus == 15 * |QualifyingGuilds(board, act, Cells(board))|
  {
    bonus := 0;
    for r := 0 to Rows(board)
      invariant bonus == 15 * |QualifyingGuilds(board, act, CellsBefore(board, r, 0))|
    {
      for c := 0 to Cols(board)
        invariant bonus == 15 * |QualifyingGuilds(board, act, CellsBefore(board, r, c))|
      {
        NextCell(board, r, c);
        QualifyingStep(board, act, CellsBefore(board, r, c), (r, c));
        var add := GuildBonusAt(board, act, r, c);
        if add {
          bonus := bonus + 15;
        }
      }
      EndOfRow(board, r);
    }
    AllVisited(board);
  }

  /** Whether the plot (r, c) earns a guild bonus. */
  method GuildBonusAt(board: Grid<Cell>, act: map<Pos, bool>, r: int, c: int) returns (earns: bool)
    requires IsRect(board) && 0 <= r < Rows(board) && 0 <= c < Cols(board)
    ensures earns <==> Qualifies(board, act, (r, c))
  {
    var cell := board[r][c];
    if cell.building != Some(Code.G) || !IsActive(act, (r, c)) {
      return false;
    }
    var target := GuildTarget(cell.buildingLabel);
    if target.None? {
      return false;
    }
    earns := MeetsGuildCondition(board, act, target.value);
  }
}
