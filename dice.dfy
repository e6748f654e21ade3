/** Dice and location pairs: the values a die may stand for, the location
    pairs four dice can produce, the pairs that still have an open plot, and
    the split of the dice into two location dice and the build dice. */
module Dice {
  import opened Board

  /** A die face as far as the rules care: one of the two split faces, or a
      single face (a number, or the forfeit symbol). */
  datatype Face = OneOrTwo | FourOrFive | Single

  /** A rolled die: its label ("N1", "X2", ...), its face, and the number it
      was resolved to, if any (none for the forfeit face). */
  datatype Die = Die(dieLabel: string, face: Face, resolved: Option<int>)

  /** The numbers a die may stand for: both halves of a split face, else its
      resolved number, else nothing. */
  function PossibleValues(d: Die): (vs: seq<int>)
    ensures |vs| <= 2
    ensures vs == [] <==> d.face == Single && d.resolved.None?
    ensures d.face == Single && d.resolved.Some? ==> vs == [d.resolved.value]
  {
    match d.face
    case OneOrTwo => [1, 2]
    case FourOrFive => [4, 5]
    case Single => if d.resolved.Some? then [d.resolved.value] else []
  }

  /** A pair of values, smaller first. */
  function Ordered(a: int, b: int): (p: Pos)
    ensures p.0 <= p.1
    ensures (p.0 == a && p.1 == b) || (p.0 == b && p.1 == a)
  {
    if a <= b then (a, b) else (b, a)
  }

  /** Lexicographic order on pairs, the order the pair list is sorted in. */
  predicate LexLess(p: Pos, q: Pos) {
    p.0 < q.0 || (p.0 == q.0 && p.1 < q.1)
  }

  predicate StrictlyIncreasing(s: seq<Pos>) {
    forall i, j :: 0 <= i < j < |s| ==> LexLess(s[i], s[j])
  }

  /** p is a value of xs and a value of ys, smaller first. */
  ghost predicate ValuePair(xs: seq<int>, ys: seq<int>, p: Pos) {
    exists a, b :: a in xs && b in ys && p == Ordered(a, b)
  }

  /** The pair p can be read off two distinct dice, one value from each. */
  ghost predicate DrawnFrom(dice: seq<Die>, p: Pos) {
    exists i, j :: 0 <= i < j < |dice| && ValuePair(PossibleValues(dice[i]), PossibleValues(dice[j]), p)
  }

  // ----- the pair set, built in the order the loops visit it -----

  /** Pairs of value x with each of ys. */
  function RowPairs(x: int, ys: seq<int>): set<Pos> {
    if ys == [] then {} else RowPairs(x, ys[..|ys| - 1]) + {Ordered(x, ys[|ys| - 1])}
  }

  /** Pairs of each of xs with each of ys. */
  function CrossPairs(xs: seq<int>, ys: seq<int>): set<Pos> {
    if xs == [] then {} else CrossPairs(xs[..|xs| - 1], ys) + RowPairs(xs[|xs| - 1], ys)
  }

  /** Pairs of die i with each die i+1 .. j-1. */
  function PairsFrom(vals: seq<seq<int>>, i: nat, j: nat): set<Pos>
    requires i < |vals| && j <= |vals|
    decreases j
  {
    if j <= i + 1 then {} else PairsFrom(vals, i, j - 1) + CrossPairs(vals[i], vals[j - 1])
  }

  /** Pairs whose first die has index below n. */
  function PairsBefore(vals: seq<seq<int>>, n: nat): set<Pos>
    requires n <= |vals|
  {
    if n == 0 then {} else PairsBefore(vals, n - 1) + PairsFrom(vals, n - 1, |vals|)
  }

  lemma {:induction false} RowPairsMembers(x: int, ys: seq<int>, p: Pos)
    ensures p in RowPairs(x, ys) <==> exists b :: b in ys && p == Ordered(x, b)
  {
    if ys != [] {
      var init := ys[..|ys| - 1];
      RowPairsMembers(x, init, p);
      if p in RowPairs(x, ys) && p != Ordered(x, ys[|ys| - 1]) {
        var b :| b in init && p == Ordered(x, b);
        assert b in ys;
      }
      if exists b :: b in ys && p == Ordered(x, b) {
        var b :| b in ys && p == Ordered(x, b);
        if b != ys[|ys| - 1] {
          assert b in init;
        }
      }
    }
  }

  lemma {:induction false} CrossPairsMembers(xs: seq<int>, ys: seq<int>, p: Pos)
    ensures p in CrossPairs(xs, ys) <==> ValuePair(xs, ys, p)
  {
    if xs != [] {
      var init, last := xs[..|xs| - 1], xs[|xs| - 1];
      CrossPairsMembers(init, ys, p);
      RowPairsMembers(last, ys, p);
      if p in CrossPairs(init, ys) {
        var a, b :| a in init && b in ys && p == Ordered(a, b);
        assert a in xs;
      }
      if ValuePair(xs, ys, p) {
        var a, b :| a in xs && b in ys && p == Ordered(a, b);
        if a != last {
          assert a in init;
        }
      }
    }
  }

  lemma {:induction false} PairsFromMembers(vals: seq<seq<int>>, i: nat, j: nat, p: Pos)
    requires i < |vals| && j <= |vals|
    ensures p in PairsFrom(vals, i, j) <==>
      exists k :: i < k < j && ValuePair(vals[i], vals[k], p)
    decreases j
  {
    if j > i + 1 {
      PairsFromMembers(vals, i, j - 1, p);
      CrossPairsMembers(vals[i], vals[j - 1], p);
    }
  }

  lemma {:induction false} PairsBeforeMembers(vals: seq<seq<int>>, n: nat, p: Pos)
    requires n <= |vals|
    ensures p in PairsBefore(vals, n) <==>
      exists i, k :: 0 <= i < n && i < k < |vals| && ValuePair(vals[i], vals[k], p)
  {
    if n > 0 {
      PairsBeforeMembers(vals, n - 1, p);
      PairsFromMembers(vals, n - 1, |vals|, p);
    }
  }

  /** Some pair of a non-empty set precedes every other one. */
  lemma {:induction false} LeastPair(s: set<Pos>) returns (m: Pos)
    requires s != {}
    ensures m in s && forall q :: q in s && q != m ==> LexLess(m, q)
    decreases |s|
  {
    var x :| x in s;
    if s == {x} {
      m := x;
    } else {
      var m' := LeastPair(s - {x});
      if LexLess(x, m') {
        m := x;
        forall q | q in s && q != x ensures LexLess(x, q) {
          if q != m' { assert LexLess(m', q); }
        }
      } else {
        m := m';
        assert LexLess(m', x);
      }
    }
  }

  /** Lists a set of pairs in increasing lexicographic order, as sorting the
      set's elements by (first, second) does. */
  method SortPairs(s: set<Pos>) returns (sorted: seq<Pos>)
    ensures StrictlyIncreasing(sorted)
    ensures forall p :: p in sorted <==> p in s
  {
    sorted := [];
    var rest := s;
    while rest != {}
      invariant forall p :: p in s <==> p in sorted || p in rest
      invariant forall p :: p in sorted ==> p !in rest
      invariant StrictlyIncreasing(sorted)
      invariant forall i, q :: 0 <= i < |sorted| && q in rest ==> LexLess(sorted[i], q)
      decreases |rest|
    {
      ghost var least := LeastPair(rest);
      var m :| m in rest && forall q :: q in rest && q != m ==> LexLess(m, q);
      sorted := sorted + [m];
      rest := rest - {m};
    }
  }

  /** Every location pair the dice can make: for each two distinct dice and
      each value of each, the pair of values, smaller first; without
      repetitions and sorted. */
  method UniqueLocationPairs(dice: seq<Die>) returns (pairs: seq<Pos>)
    ensures StrictlyIncreasing(pairs)
    ensures forall p :: p in pairs ==> p.0 <= p.1
    ensures forall p :: p in pairs <==> DrawnFrom(dice, p)
  {
    var found := CollectPairs(ValuesOf(dice));
    forall p ensures p in found <==> DrawnFrom(dice, p) {
      AllPairsDrawn(dice, p);
    }
    forall p | p in found ensures p.0 <= p.1 {
      DrawnIsOrdered(dice, p);
    }
    pairs := SortPairs(found);
  }

  /** The nested loops over two distinct dice, gathering their pairs. */
  method CollectPairs(values: seq<seq<int>>) returns (found: set<Pos>)
    ensures found == PairsBefore(values, |values|)
  {
    found := {};
    for i := 0 to |values|
      invariant found == PairsBefore(values, i)
    {
      for j := i + 1 to |values|
        invariant found == PairsBefore(values, i) + PairsFrom(values, i, j)
      {
        found := AddCross(found, values[i], values[j]);
      }
    }
  }

  /** A drawn pair has its smaller value first. */
  lemma DrawnIsOrdered(dice: seq<Die>, p: Pos)
    requires DrawnFrom(dice, p)
    ensures p.0 <= p.1
  {
    var i, j :| 0 <= i < j < |dice| && ValuePair(PossibleValues(dice[i]), PossibleValues(dice[j]), p);
    var a, b :| a in PossibleValues(dice[i]) && b in PossibleValues(dice[j]) && p == Ordered(a, b);
  }

  function ValuesOf(dice: seq<Die>): (vals: seq<seq<int>>)
    ensures |vals| == |dice|
    ensures forall k :: 0 <= k < |dice| ==> vals[k] == PossibleValues(dice[k])
  {
    seq(|dice|, k requires 0 <= k < |dice| => PossibleValues(dice[k]))
  }

  /** The pairs the loops collect are exactly the pairs drawn from the dice. */
  lemma AllPairsDrawn(dice: seq<Die>, p: Pos)
    ensures p in PairsBefore(ValuesOf(dice), |dice|) <==> DrawnFrom(dice, p)
  {
    var vals := ValuesOf(dice);
    PairsBeforeMembers(vals, |dice|, p);
    if DrawnFrom(dice, p) {
      var i, j :| 0 <= i < j < |dice| && ValuePair(PossibleValues(dice[i]), PossibleValues(dice[j]), p);
      assert ValuePair(vals[i], vals[j], p);
    }
  }

  /** Adds the pair of each of xs with each of ys. */
  method AddCross(found: set<Pos>, xs: seq<int>, ys: seq<int>) returns (found': set<Pos>)
    ensures found' == found + CrossPairs(xs, ys)
  {
    found' := found;
    for x := 0 to |xs|
      invariant found' == found + CrossPairs(xs[..x], ys)
    {
      assert xs[..x + 1][..x] == xs[..x];
      for y := 0 to |ys|
        invariant found' == found + CrossPairs(xs[..x], ys) + RowPairs(xs[x], ys[..y])
      {
        assert ys[..y + 1][..y] == ys[..y];
        found' := found' + {Ordered(xs[x], ys[y])};
      }
      assert ys[..|ys|] == ys;
    }
    assert xs[..|xs|] == xs;
  }

  // ----- availability on the board -----

  /** (r, c) is a plot of the board that is neither built nor forfeited;
      coordinates outside the board count as closed. */
  predicate OpenAt(board: Grid<Cell>, r: int, c: int)
    requires IsRect(board)
  {
    0 <= r < Rows(board) && 0 <= c < Cols(board) && IsOpen(board[r][c])
  }

  /** A pair [a, b] names plot (a-1, b-1) or plot (b-1, a-1). */
  predicate PairAvailable(board: Grid<Cell>, p: Pos)
    requires IsRect(board)
  {
    OpenAt(board, p.0 - 1, p.1 - 1) || OpenAt(board, p.1 - 1, p.0 - 1)
  }

  /** The pairs, in their order, that name at least one open plot. */
  function FilterAvailablePairs(pairs: seq<Pos>, board: Grid<Cell>): (kept: seq<Pos>)
    requires IsRect(board)
    ensures |kept| <= |pairs|
    ensures forall p :: p in kept <==> p in pairs && PairAvailable(board, p)
    ensures StrictlyIncreasing(pairs) ==> StrictlyIncreasing(kept)
  {
    if pairs == [] then []
    else if PairAvailable(board, pairs[0]) then
      IncreasingHead(pairs);
      [pairs[0]] + FilterAvailablePairs(pairs[1..], board)
    else FilterAvailablePairs(pairs[1..], board)
  }

  lemma IncreasingHead(pairs: seq<Pos>)
    requires |pairs| > 0
    ensures StrictlyIncreasing(pairs) ==> forall q :: q in pairs[1..] ==> LexLess(pairs[0], q)
  {
    if StrictlyIncreasing(pairs) {
      forall q | q in pairs[1..] ensures LexLess(pairs[0], q) {
        var m :| 0 <= m < |pairs[1..]| && pairs[1..][m] == q;
        assert pairs[m + 1] == q;
      }
    }
  }

  /** On a board with no open plot no pair survives. */
  lemma FullBoardLeavesNoPairs(pairs: seq<Pos>, board: Grid<Cell>)
    requires IsRect(board) && IsFull(board)
    ensures FilterAvailablePairs(pairs, board) == []
  {
  }

  /** The location pairs of the dice that name an open plot, sorted. */
  method AvailableLocationPairs(dice: seq<Die>, board: Grid<Cell>) returns (pairs: seq<Pos>)
    requires IsRect(board)
    ensures StrictlyIncreasing(pairs)
    ensures forall p :: p in pairs <==> DrawnFrom(dice, p) && PairAvailable(board, p)
    ensures IsFull(board) ==> pairs == []
  {
    var all := UniqueLocationPairs(dice);
    pairs := FilterAvailablePairs(all, board);
    if IsFull(board) {
      FullBoardLeavesNoPairs(all, board);
    }
  }

  /** A die without any value takes no part in a location pair: the pairs of
      the dice are those of the dice without it. */
  lemma ValuelessDieIgnored(dice: seq<Die>, k: nat, p: Pos)
    requires k < |dice| && PossibleValues(dice[k]) == []
    ensures DrawnFrom(dice, p) <==> DrawnFrom(dice[..k] + dice[k + 1..], p)
  {
    var rest := dice[..k] + dice[k + 1..];
    forall m | 0 <= m < |rest| ensures rest[m] == dice[if m < k then m else m + 1] {
      RestIndex(dice, k, m);
    }
    if DrawnFrom(dice, p) {
      DrawnWithout(dice, k, rest, p);
    }
    if DrawnFrom(rest, p) {
      DrawnWith(dice, k, rest, p);
    }
  }

  /** `rest` is `dice` with die k taken out. */
  predicate Skips(dice: seq<Die>, k: nat, rest: seq<Die>) {
    k < |dice| && |rest| == |dice| - 1 &&
    forall m :: 0 <= m < |rest| ==> rest[m] == dice[if m < k then m else m + 1]
  }

  lemma DrawnWithout(dice: seq<Die>, k: nat, rest: seq<Die>, p: Pos)
    requires Skips(dice, k, rest) && PossibleValues(dice[k]) == []
    requires DrawnFrom(dice, p)
    ensures DrawnFrom(rest, p)
  {
    var i, j, a, b := DrawnWitness(dice, p);
    var i' := SkippedIndex(dice, k, rest, i, a);
    var j' := SkippedIndex(dice, k, rest, j, b);
    DrawnBy(rest, i', j', a, b, p);
  }

  /** Where die i, which has value a, sits once die k is taken out. */
  lemma SkippedIndex(dice: seq<Die>, k: nat, rest: seq<Die>, i: nat, a: int) returns (i': nat)
    requires Skips(dice, k, rest) && PossibleValues(dice[k]) == []
    requires i < |dice| && a in PossibleValues(dice[i])
    ensures i' < |rest| && rest[i'] == dice[i]
    ensures i' == if i < k then i else i - 1
  {
    assert i != k;
    i' := if i < k then i else i - 1;
    assert rest[i'] == dice[if i' < k then i' else i' + 1];
  }

  lemma DrawnWith(dice: seq<Die>, k: nat, rest: seq<Die>, p: Pos)
    requires Skips(dice, k, rest)
    requires DrawnFrom(rest, p)
    ensures DrawnFrom(dice, p)
  {
    var i, j :| 0 <= i < j < |rest| && ValuePair(PossibleValues(rest[i]), PossibleValues(rest[j]), p);
    var a, b :| a in PossibleValues(rest[i]) && b in PossibleValues(rest[j]) && p == Ordered(a, b);
    assert rest[i] == dice[if i < k then i else i + 1] && rest[j] == dice[if j < k then j else j + 1];
    DrawnBy(dice, if i < k then i else i + 1, if j < k then j else j + 1, a, b, p);
  }

  /** The two dice and their values a drawn pair is read off. */
  lemma DrawnWitness(dice: seq<Die>, p: Pos) returns (i: nat, j: nat, a: int, b: int)
    requires DrawnFrom(dice, p)
    ensures i < j < |dice| && a in PossibleValues(dice[i]) && b in PossibleValues(dice[j]) && p == Ordered(a, b)
  {
    var i', j' :| 0 <= i' < j' < |dice| && ValuePair(PossibleValues(dice[i']), PossibleValues(dice[j']), p);
    i, j := i', j';
    a, b :| a in PossibleValues(dice[i]) && b in PossibleValues(dice[j]) && p == Ordered(a, b);
  }

  /** Values a of die i and b of die j, i before j, draw the pair of a and b. */
  lemma DrawnBy(dice: seq<Die>, i: nat, j: nat, a: int, b: int, p: Pos)
    requires i < j < |dice| && a in PossibleValues(dice[i]) && b in PossibleValues(dice[j]) && p == Ordered(a, b)
    ensures DrawnFrom(dice, p)
  {
    assert ValuePair(PossibleValues(dice[i]), PossibleValues(dice[j]), p);
  }

  lemma RestIndex(dice: seq<Die>, k: nat, m: nat)
    requires k < |dice| && m < |dice| - 1
    ensures (dice[..k] + dice[k + 1..])[m] == dice[if m < k then m else m + 1]
  {
  }

  // ----- splitting the dice into location dice and build dice -----

  /** One way to read the location pair off two dice: die i shows its x-th
      possible value a and die j its y-th possible value b, with the
      flexibility scores the choice is ranked by. */
  datatype Candidate = Candidate(i: nat, j: nat, x: nat, y: nat, a: int, b: int,
                                 remainingFlex: int, usedFlex: int)

  function Max(a: int, b: int): int { if a < b then b else a }

  function Min(a: int, b: int): int { if a < b then a else b }

  /** How many values a die may still take. */
  function Flex(d: Die): int {
    Max(|PossibleValues(d)|, if d.resolved.Some? then 1 else 0)
  }

  /** The flexibility of the dice among the first n other than i and j. */
  function RemainingFlex(dice: seq<Die>, i: nat, j: nat, n: nat): int
    requires n <= |dice|
  {
    if n == 0 then 0
    else RemainingFlex(dice, i, j, n - 1) + (if n - 1 == i || n - 1 == j then 0 else Flex(dice[n - 1]))
  }

  function IsSplit(d: Die): int {
    if |PossibleValues(d)| > 1 then 1 else 0
  }

  predicate MatchesPair(a: int, b: int, loc: Pos) {
    (a == loc.0 && b == loc.1) || (a == loc.1 && b == loc.0)
  }

  ghost predicate IsCandidate(dice: seq<Die>, loc: Pos, c: Candidate) {
    c.i < c.j < |dice| &&
    c.x < |PossibleValues(dice[c.i])| && c.y < |PossibleValues(dice[c.j])| &&
    c.a == PossibleValues(dice[c.i])[c.x] && c.b == PossibleValues(dice[c.j])[c.y] &&
    MatchesPair(c.a, c.b, loc) &&
    c.remainingFlex == RemainingFlex(dice, c.i, c.j, |dice|) &&
    c.usedFlex == IsSplit(dice[c.i]) + IsSplit(dice[c.j])
  }

  /** c sorts strictly before d: more flexibility left for building, then
      fewer split faces spent on the location. */
  predicate Preferred(c: Candidate, d: Candidate) {
    c.remainingFlex > d.remainingFlex ||
    (c.remainingFlex == d.remainingFlex && c.usedFlex < d.usedFlex)
  }

  /** c comes before position (i, j, x, y) in the order the loops visit. */
  predicate Before(c: Candidate, i: int, j: int, x: int, y: int) {
    c.i < i || (c.i == i && (c.j < j || (c.j == j && (c.x < x || (c.x == x && c.y < y)))))
  }

  predicate Earlier(c: Candidate, d: Candidate) {
    Before(c, d.i, d.j, d.x, d.y)
  }

  /** The candidate a stable sort by preference puts first: none is
      preferred to it, and every earlier one is strictly worse. */
  ghost predicate IsBest(dice: seq<Die>, loc: Pos, c: Candidate) {
    IsCandidate(dice, loc, c) &&
    forall d :: IsCandidate(dice, loc, d) ==> !Preferred(d, c) && (Earlier(d, c) ==> Preferred(c, d))
  }

  function Without(s: seq<Die>, i: nat, j: nat): (r: seq<Die>)
    requires i < j < |s|
    ensures |r| == |s| - 2
  {
    s[..i] + s[i + 1..j] + s[j + 1..]
  }

  function Take2(s: seq<Die>): (r: seq<Die>)
    ensures |r| <= 2
  {
    if |s| <= 2 then s else s[..2]
  }

  /** Collects every candidate, in loop order. */
  method Candidates(dice: seq<Die>, loc: Pos) returns (cands: seq<Candidate>)
    ensures forall k :: 0 <= k < |cands| ==> IsCandidate(dice, loc, cands[k])
    ensures forall c :: IsCandidate(dice, loc, c) ==> c in cands
    ensures forall k, l :: 0 <= k < l < |cands| ==> Earlier(cands[k], cands[l])
  {
    cands := [];
    for i := 0 to |dice|
      invariant forall k :: 0 <= k < |cands| ==> IsCandidate(dice, loc, cands[k]) && Before(cands[k], i, 0, 0, 0)
      invariant forall c :: IsCandidate(dice, loc, c) && Before(c, i, 0, 0, 0) ==> c in cands
      invariant forall k, l :: 0 <= k < l < |cands| ==> Earlier(cands[k], cands[l])
    {
      for j := i + 1 to |dice|
        invariant forall k :: 0 <= k < |cands| ==> IsCandidate(dice, loc, cands[k]) && Before(cands[k], i, j, 0, 0)
        invariant forall c :: IsCandidate(dice, loc, c) && Before(c, i, j, 0, 0) ==> c in cands
        invariant forall k, l :: 0 <= k < l < |cands| ==> Earlier(cands[k], cands[l])
      {
        var more := PairCandidates(dice, loc, i, j);
        cands := cands + more;
      }
    }
  }

  /** The candidates that read the pair off dice i and j, in loop order. */
  method PairCandidates(dice: seq<Die>, loc: Pos, i: nat, j: nat) returns (cands: seq<Candidate>)
    requires i < j < |dice|
    ensures forall k :: 0 <= k < |cands| ==> IsCandidate(dice, loc, cands[k]) && cands[k].i == i && cands[k].j == j
    ensures forall c :: IsCandidate(dice, loc, c) && c.i == i && c.j == j ==> c in cands
    ensures forall k, l :: 0 <= k < l < |cands| ==> Earlier(cands[k], cands[l])
  {
    cands := [];
    for x := 0 to |PossibleValues(dice[i])|
      invariant forall k :: 0 <= k < |cands| ==> IsCandidate(dice, loc, cands[k]) && Before(cands[k], i, j, x, 0) && cands[k].i == i && cands[k].j == j
      invariant forall c :: IsCandidate(dice, loc, c) && Before(c, i, j, x, 0) && c.i == i && c.j == j ==> c in cands
      invariant forall k, l :: 0 <= k < l < |cands| ==> Earlier(cands[k], cands[l])
    {
      cands := CandidatesAt(dice, loc, i, j, x, cands);
    }
  }

  /** Appends the candidates that read the pair off value x of die i and
      each value of die j, in loop order. */
  method CandidatesAt(dice: seq<Die>, loc: Pos, i: nat, j: nat, x: nat, cands: seq<Candidate>)
    returns (cands': seq<Candidate>)
    requires i < j < |dice| && x < |PossibleValues(dice[i])|
    requires forall k :: 0 <= k < |cands| ==> IsCandidate(dice, loc, cands[k]) && Before(cands[k], i, j, x, 0) && cands[k].i == i && cands[k].j == j
    requires forall c :: IsCandidate(dice, loc, c) && Before(c, i, j, x, 0) && c.i == i && c.j == j ==> c in cands
    requires forall k, l :: 0 <= k < l < |cands| ==> Earlier(cands[k], cands[l])
    ensures forall k :: 0 <= k < |cands'| ==> IsCandidate(dice, loc, cands'[k]) && Before(cands'[k], i, j, x + 1, 0) && cands'[k].i == i && cands'[k].j == j
    ensures forall c :: IsCandidate(dice, loc, c) && Before(c, i, j, x + 1, 0) && c.i == i && c.j == j ==> c in cands'
    ensures forall k, l :: 0 <= k < l < |cands'| ==> Earlier(cands'[k], cands'[l])
  {
    var xs, ys := PossibleValues(dice[i]), PossibleValues(dice[j]);
    var remaining := RemainingFlex(dice, i, j, |dice|);
    var used := IsSplit(dice[i]) + IsSplit(dice[j]);
    cands' := cands;
    for y := 0 to |ys|
      invariant forall k :: 0 <= k < |cands'| ==> IsCandidate(dice, loc, cands'[k]) && Before(cands'[k], i, j, x, y) && cands'[k].i == i && cands'[k].j == j
      invariant forall c :: IsCandidate(dice, loc, c) && Before(c, i, j, x, y) && c.i == i && c.j == j ==> c in cands'
      invariant forall k, l :: 0 <= k < l < |cands'| ==> Earlier(cands'[k], cands'[l])
    {
      if MatchesPair(xs[x], ys[y], loc) {
        cands' := cands' + [Candidate(i, j, x, y, xs[x], ys[y], remaining, used)];
      }
    }
  }

  /** The index of the first candidate that no other candidate is preferred to. */
  method PickPreferred(cands: seq<Candidate>) returns (best: nat)
    requires |cands| > 0
    ensures best < |cands|
    ensures forall m :: 0 <= m < |cands| ==> !Preferred(cands[m], cands[best])
    ensures forall m :: 0 <= m < best ==> Preferred(cands[best], cands[m])
  {
    best := 0;
    for k := 1 to |cands|
      invariant best < k
      invariant forall m :: 0 <= m < k ==> !Preferred(cands[m], cands[best])
      invariant forall m :: 0 <= m < best ==> Preferred(cands[best], cands[m])
    {
      if Preferred(cands[k], cands[best]) {
        best := k;
      }
    }
  }

  /** Splits the dice for a chosen location pair: among all ways of reading
      the pair off two dice, the one that leaves the most flexible dice for
      building (ties: the first found) fixes the two location dice to the
      pair's values; the other dice, at most two, are the build dice. When no
      two dice can show the pair, there are no location dice and the first
      two dice are the build dice. */
  method ComputeBuildDice(loc: Pos, dice: seq<Die>) returns (buildDice: seq<Die>, locationDice: seq<Die>)
    ensures |buildDice| <= 2
    ensures (forall c :: !IsCandidate(dice, loc, c)) ==> buildDice == Take2(dice) && locationDice == []
    ensures (exists c :: IsCandidate(dice, loc, c)) ==>
      exists c :: IsBest(dice, loc, c) &&
        locationDice == [dice[c.i].(resolved := Some(c.a)), dice[c.j].(resolved := Some(c.b))] &&
        buildDice == Take2(Without(dice, c.i, c.j))
  {
    var cands := Candidates(dice, loc);
    if cands == [] {
      buildDice, locationDice := Take2(dice), [];
      return;
    }
    var k := PickPreferred(cands);
    var c := cands[k];
    FirstPreferredIsBest(dice, loc, cands, k);
    locationDice := [dice[c.i].(resolved := Some(c.a)), dice[c.j].(resolved := Some(c.b))];
    buildDice := Take2(Without(dice, c.i, c.j));
  }

  /** In the list of all candidates in loop order, the first one no other
      candidate is preferred to is the best. */
  lemma FirstPreferredIsBest(dice: seq<Die>, loc: Pos, cands: seq<Candidate>, k: nat)
    requires forall m :: 0 <= m < |cands| ==> IsCandidate(dice, loc, cands[m])
    requires forall c :: IsCandidate(dice, loc, c) ==> c in cands
    requires forall m, l :: 0 <= m < l < |cands| ==> Earlier(cands[m], cands[l])
    requires k < |cands|
    requires forall m :: 0 <= m < |cands| ==> !Preferred(cands[m], cands[k])
    requires forall m :: 0 <= m < k ==> Preferred(cands[k], cands[m])
    ensures IsBest(dice, loc, cands[k])
  {
    var c := cands[k];
    forall d | IsCandidate(dice, loc, d)
      ensures !Preferred(d, c) && (Earlier(d, c) ==> Preferred(c, d))
    {
      var m :| 0 <= m < |cands| && cands[m] == d;
    }
  }

  /** Every pair the dice can make has a way of reading it off two dice, so
      splitting the dice for an offered pair always finds location dice. */
  lemma OfferedPairHasCandidate(dice: seq<Die>, loc: Pos)
    requires DrawnFrom(dice, loc)
    ensures exists c :: IsCandidate(dice, loc, c)
  {
    var i, j :| 0 <= i < j < |dice| && ValuePair(PossibleValues(dice[i]), PossibleValues(dice[j]), loc);
    var a, b :| a in PossibleValues(dice[i]) && b in PossibleValues(dice[j]) && loc == Ordered(a, b);
    var xs, ys := PossibleValues(dice[i]), PossibleValues(dice[j]);
    var x :| 0 <= x < |xs| && xs[x] == a;
    var y :| 0 <= y < |ys| && ys[y] == b;
    var c := Candidate(i, j, x, y, a, b, RemainingFlex(dice, i, j, |dice|), IsSplit(dice[i]) + IsSplit(dice[j]));
    assert IsCandidate(dice, loc, c);
  }
}
